/**
 Tag pools.  `TagStack` is the one of lib/common/com_tag.c, with a count and a read position;
 `TunedTagStack` is the one of the macros in include/com_tag.h, whose two cursors count down
 round the ring and carry the parity of their laps in bit 15.  Both are proved to be the same
 queue (FIFO) or stack (FILO) of tags.
 */
module Tags {
  import opened Common

  const MIRROR := 0x8000

  // ---------------------------------------------------------------- the specification

  /** What a pool of `size` tags hands out, in this order, if nothing is released. */
  function Filled(size: nat): seq<nat> { Upto(size) }

  function Released(avail: seq<nat>, tag: nat, fifo: bool): seq<nat> {
    if fifo then avail + [tag] else [tag] + avail
  }

  // ---------------------------------------------------------------- cursors with a mirror bit

  function Low(cursor: nat): nat { cursor % MIRROR }
  function Mirror(cursor: nat): nat { cursor - Low(cursor) }
  function Flip(mirror: nat): nat { if mirror == 0 then MIRROR else 0 }

  /** Bitwise or of a mirror bit and a 16-bit index. */
  function WithMirror(mirror: nat, index: nat): nat { if index >= MIRROR then index else mirror + index }

  /** The index a cursor moves down to. */
  function DownIndex(cursor: nat, size: nat): nat
    requires size > 0
  {
    if Low(cursor) > 0 then Low(cursor) - 1 else size - 1
  }

  function Down(cursor: nat, size: nat): nat
    requires size > 0
  {
    WithMirror(if Low(cursor) > 0 then Mirror(cursor) else Flip(Mirror(cursor)), DownIndex(cursor, size))
  }

  /**
   The two cursors of a ring: at most one lap apart.  `top` starts at `size`, which is no
   index of the ring, and `out` at 0.
   */
  predicate GoodCursors(top: nat, out: nat, size: nat) {
    && 0 < size <= MIRROR
    && top < 2 * MIRROR && out < 2 * MIRROR
    && Low(out) < size
    && (Low(top) < size || (top == size && out == 0))
    && (if Mirror(top) == Mirror(out) then Low(out) <= Low(top) else Low(top) <= Low(out))
  }

  function Available(top: nat, out: nat, size: nat): (n: nat)
    requires GoodCursors(top, out, size)
    ensures n <= size
  {
    if Mirror(top) == Mirror(out) then Low(top) - Low(out) else Low(top) + size - Low(out)
  }

  /** The cell of the tag to be handed out after `i` others. */
  function Cell(top: nat, size: nat, i: nat): int {
    if Low(top) - 1 - i >= 0 then Low(top) - 1 - i else Low(top) - 1 - i + size
  }

  lemma CellInRange(top: nat, out: nat, size: nat, i: nat)
    requires GoodCursors(top, out, size) && i < Available(top, out, size)
    ensures 0 <= Cell(top, size, i) < size
  {
  }

  /** Two tags that may be handed out are in different cells. */
  lemma CellsDiffer(top: nat, out: nat, size: nat, i: nat, j: nat)
    requires GoodCursors(top, out, size) && i < j < Available(top, out, size)
    ensures Cell(top, size, i) != Cell(top, size, j)
  {
  }

  lemma DownLow(cursor: nat, size: nat)
    requires 0 < size <= MIRROR && cursor < 2 * MIRROR && (Low(cursor) <= size)
    ensures Low(Down(cursor, size)) == DownIndex(cursor, size) && Down(cursor, size) < 2 * MIRROR
    ensures Mirror(Down(cursor, size)) == if Low(cursor) > 0 then Mirror(cursor) else Flip(Mirror(cursor))
  {
  }

  /** Tag_GetOne's cursor step takes the first available cell. */
  lemma GetStep(top: nat, out: nat, size: nat)
    requires GoodCursors(top, out, size) && Available(top, out, size) > 0
    ensures var top' := Down(top, size);
      && GoodCursors(top', out, size)
      && Available(top', out, size) == Available(top, out, size) - 1
      && DownIndex(top, size) == Cell(top, size, 0)
      && forall i :: 0 <= i < Available(top', out, size) ==> Cell(top', size, i) == Cell(top, size, i + 1)
  {
    DownLow(top, size);
    hide Down;
  }

  /** Tag_ReleaseOne's cursor step puts one more cell behind the available ones. */
  lemma ReleaseStep(top: nat, out: nat, size: nat)
    requires GoodCursors(top, out, size) && Available(top, out, size) < size
    ensures var out' := Down(out, size);
      && GoodCursors(top, out', size)
      && Available(top, out', size) == Available(top, out, size) + 1
      && DownIndex(out, size) == Cell(top, size, Available(top, out, size))
  {
    DownLow(out, size);
    hide Down;
  }

  /** The cursors are equal exactly when nothing is available, however many laps they have made. */
  lemma EmptyExactly(top: nat, out: nat, size: nat)
    requires GoodCursors(top, out, size)
    ensures out == top <==> Available(top, out, size) == 0
  {
  }

  /** The tuned ring of `size` cells hands out tag 0 first exactly when bit 15 is free for the mirror. */
  lemma FirstTagExactly(size: nat, stack: seq<nat>)
    requires 0 < size < 0x1_0000 && |stack| == size && forall i :: 0 <= i < size ==> stack[i] == size - 1 - i
    ensures DownIndex(size, size) < size && (stack[DownIndex(size, size)] == 0 <==> size <= MIRROR)
  {
  }

  /** The tags a tuned ring will hand out, next first. */
  function RingContents(cells: seq<nat>, top: nat, out: nat): (s: seq<nat>)
    requires GoodCursors(top, out, |cells|)
  {
    seq(Available(top, out, |cells|), i requires 0 <= i < Available(top, out, |cells|) =>
      CellInRange(top, out, |cells|, i); cells[Cell(top, |cells|, i)])
  }

  function StackContents(cells: seq<nat>, top: nat): seq<nat>
    requires top <= |cells|
  {
    seq(top, i requires 0 <= i < top => cells[top - 1 - i])
  }

  function Wrap(i: nat, n: nat): nat { if i < n then i else i - n }

  /** The tags com_tag.c's ring will hand out. */
  function QueueContents(cells: seq<nat>, top: nat, out: nat): seq<nat>
    requires top <= |cells| && (out < |cells| || top == 0)
  {
    seq(top, i requires 0 <= i < top => cells[Wrap(out + i, |cells|)])
  }

  /** What the initial fillings stand for. */
  lemma FilledCells(cells: seq<nat>, up: bool)
    requires forall i :: 0 <= i < |cells| ==> cells[i] == if up then i else |cells| - 1 - i
    ensures if up then QueueContents(cells, |cells|, 0) == Filled(|cells|) else StackContents(cells, |cells|) == Filled(|cells|)
    ensures !up && 0 < |cells| <= MIRROR ==> GoodCursors(|cells|, 0, |cells|) && RingContents(cells, |cells|, 0) == Filled(|cells|)
  {
    var n := |cells|;
    if up {
      forall i | 0 <= i < n ensures QueueContents(cells, n, 0)[i] == i {
        assert Wrap(0 + i, n) == i;
      }
      assert QueueContents(cells, n, 0) == Filled(n);
    } else {
      forall i | 0 <= i < n ensures StackContents(cells, n)[i] == i {
        assert cells[n - 1 - i] == i;
      }
      assert StackContents(cells, n) == Filled(n);
    }
  }

  lemma QueueGet(cells: seq<nat>, top: nat, out: nat)
    requires 0 < top <= |cells| && out < |cells|
    ensures var out' := if out + 1 >= |cells| then 0 else out + 1;
      [cells[out]] + QueueContents(cells, top - 1, out') == QueueContents(cells, top, out)
  {
    var out' := if out + 1 >= |cells| then 0 else out + 1;
    var s := [cells[out]] + QueueContents(cells, top - 1, out');
    forall i | 0 <= i < top ensures s[i] == cells[Wrap(out + i, |cells|)] {
      if i > 0 {
        assert s[i] == QueueContents(cells, top - 1, out')[i - 1] == cells[Wrap(out' + (i - 1), |cells|)];
      }
    }
  }

  lemma QueueRelease(cells: seq<nat>, top: nat, out: nat, tag: nat)
    requires top < |cells| && out < |cells|
    ensures (out + top) % |cells| == Wrap(out + top, |cells|)
    ensures QueueContents(cells[Wrap(out + top, |cells|) := tag], top + 1, out) == QueueContents(cells, top, out) + [tag]
  {
    RemainderOnce(out + top, |cells|);
    var w := Wrap(out + top, |cells|);
    forall i | 0 <= i < top ensures QueueContents(cells[w := tag], top + 1, out)[i] == QueueContents(cells, top, out)[i] {
      assert Wrap(out + i, |cells|) != w;
    }
  }

  /** A stack's count, moved down by the same step. */
  lemma StackDown(top: nat, size: nat)
    requires 0 < top <= size <= MIRROR
    ensures DownIndex(top, size) == top - 1 && Down(top, size) == top - 1
  {
  }

  lemma StackRelease(cells: seq<nat>, top: nat, tag: nat)
    requires top < |cells|
    ensures StackContents(cells[top := tag], top + 1) == [tag] + StackContents(cells, top)
  {
  }

  lemma RingGet(cells: seq<nat>, top: nat, out: nat)
    requires GoodCursors(top, out, |cells|) && Available(top, out, |cells|) > 0
    ensures GoodCursors(Down(top, |cells|), out, |cells|) && DownIndex(top, |cells|) < |cells|
    ensures [cells[DownIndex(top, |cells|)]] + RingContents(cells, Down(top, |cells|), out) == RingContents(cells, top, out)
  {
    GetStep(top, out, |cells|);
    hide Down, Available, Cell, GoodCursors;
  }

  lemma RingRelease(cells: seq<nat>, top: nat, out: nat, tag: nat)
    requires GoodCursors(top, out, |cells|) && Available(top, out, |cells|) < |cells|
    ensures GoodCursors(top, Down(out, |cells|), |cells|) && DownIndex(out, |cells|) < |cells|
    ensures RingContents(cells[DownIndex(out, |cells|) := tag], top, Down(out, |cells|)) == RingContents(cells, top, out) + [tag]
  {
    var n := Available(top, out, |cells|);
    ReleaseStep(top, out, |cells|);
    forall k | 0 <= k < n ensures Cell(top, |cells|, k) != DownIndex(out, |cells|) && 0 <= Cell(top, |cells|, k) < |cells| {
      CellsDiffer(top, Down(out, |cells|), |cells|, k, n);
      CellInRange(top, out, |cells|, k);
    }
    hide Down, Available, Cell, GoodCursors, DownIndex;
  }

  // ---------------------------------------------------------------- the macros of com_tag.h

  class TunedTagStack {
    const stack: array<nat>
    const size: nat
    var top: nat
    var ptrOut: nat
    const fifo: bool

    ghost predicate Valid()
      reads this
    {
      && stack.Length == size
      && if size == 0 then top == ptrOut == 0
         else if fifo then GoodCursors(top, ptrOut, size)
         else top <= size <= MIRROR && ptrOut == 0
    }

    /** The tags to be handed out, next first. */
    ghost function Contents(): seq<nat>
      requires Valid()
      reads this, stack
    {
      if size == 0 then [] else if fifo then RingContents(stack[..], top, ptrOut) else StackContents(stack[..], top)
    }

    /** Tag_Init, and for FIFO pools the macro Tag_Init_FIFO on top of it. */
    constructor Init(size: nat, fifo: bool)
      requires size <= MIRROR
      ensures Valid() && fresh(stack) && this.size == size && this.fifo == fifo
      ensures Contents() == Filled(size)
    {
      this.size := size;
      this.fifo := fifo;
      stack := new nat[size](i requires 0 <= i < size => size - 1 - i);
      top := size;
      ptrOut := 0;
      new;
      FilledCells(stack[..], false);
    }

    /** The lines both macros share: the cursor goes one cell down, round the end with its mirror bit turned. */
    method StepDown(cursor: nat) returns (cursor': nat, i: nat)
      requires size > 0
      ensures cursor' == Down(cursor, size) && i == DownIndex(cursor, size)
    {
      i := Low(cursor);
      var mirror := Mirror(cursor);
      if i > 0 {
        i := i - 1;
      } else {
        i := size - 1;
        mirror := Flip(mirror);
      }
      cursor' := WithMirror(mirror, i);
    }

    /** Tag_GetOne. */
    method GetOne() returns (tag: nat)
      requires Valid() && Contents() != []
      modifies this`top
      ensures Valid()
      ensures [tag] + Contents() == old(Contents())
    {
      hide Down, DownIndex, Cell;
      if fifo {
        RingGet(stack[..], top, ptrOut);
      } else {
        StackDown(top, size);
      }
      var i;
      top, i := StepDown(top);
      tag := stack[i];
    }

    /** Tag_ReleaseOne. */
    method ReleaseOne(tag: nat)
      requires Valid() && |Contents()| < size
      modifies this`top, this`ptrOut, stack
      ensures Valid()
      ensures Contents() == Released(old(Contents()), tag, fifo)
    {
      hide Down, DownIndex, Cell;
      if fifo {
        RingRelease(stack[..], top, ptrOut, tag);
        ghost var before := stack[..];
        var i;
        ptrOut, i := StepDown(ptrOut);
        stack[i] := tag;
        assert stack[..] == before[i := tag];
      } else {
        ghost var before := stack[..];
        StackRelease(before, top, tag);
        stack[top] := tag;
        assert stack[..] == before[top := tag];
        top := top + 1;
      }
    }

    method IsEmpty() returns (empty: bool)
      requires Valid()
      ensures empty <==> Contents() == []
    {
      if fifo && size > 0 {
        EmptyExactly(top, ptrOut, size);
      }
      empty := ptrOut == top;
    }
  }

  // ---------------------------------------------------------------- com_tag.c

  class TagStack {
    const stack: array<nat>
    const size: nat
    var top: nat
    var ptrOut: nat
    const fifo: bool

    ghost predicate Valid()
      reads this
    {
      && stack.Length == size && top <= size
      && (if fifo && size > 0 then ptrOut < size else ptrOut == 0)
    }

    ghost function Contents(): (s: seq<nat>)
      requires Valid()
      reads this, stack
    {
      if fifo then QueueContents(stack[..], top, ptrOut) else StackContents(stack[..], top)
    }

    /** Tag_Init (FILO) and Tag_Init_FIFO. */
    constructor Init(size: nat, fifo: bool)
      ensures Valid() && fresh(stack) && this.size == size && this.fifo == fifo
      ensures Contents() == Filled(size)
    {
      this.size := size;
      this.fifo := fifo;
      stack := new nat[size](i requires 0 <= i < size => if fifo then i else size - 1 - i);
      top := size;
      ptrOut := 0;
      new;
      FilledCells(stack[..], fifo);
    }

    method GetOne() returns (tag: nat)
      requires Valid() && Contents() != []
      modifies this`top, this`ptrOut
      ensures Valid()
      ensures [tag] + Contents() == old(Contents())
    {
      if fifo {
        QueueGet(stack[..], top, ptrOut);
        tag := stack[ptrOut];
        ptrOut := ptrOut + 1;
        if ptrOut >= size {
          ptrOut := 0;
        }
        top := top - 1;
      } else {
        top := top - 1;
        tag := stack[top];
      }
    }

    method ReleaseOne(tag: nat)
      requires Valid() && |Contents()| < size
      modifies this`top, stack
      ensures Valid()
      ensures Contents() == Released(old(Contents()), tag, fifo)
    {
      if fifo {
        ghost var before := stack[..];
        QueueRelease(before, top, ptrOut, tag);
        stack[(ptrOut + top) % size] := tag;
        assert stack[..] == before[Wrap(ptrOut + top, size) := tag];
        top := top + 1;
      } else {
        ghost var before := stack[..];
        StackRelease(before, top, tag);
        stack[top] := tag;
        assert stack[..] == before[top := tag];
        top := top + 1;
      }
    }

    method IsEmpty() returns (empty: bool)
      requires Valid()
      ensures empty <==> Contents() == []
    {
      empty := top == 0;
    }
  }

  lemma RemainderOnce(x: nat, n: nat)
    requires n > 0 && x < 2 * n
    ensures x % n == if x < n then x else x - n
  {
    if x >= n {
      assert x == n + (x - n);
      assert x / n == 1;
    }
  }
}
