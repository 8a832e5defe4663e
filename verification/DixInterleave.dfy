/**
 append_intersect_sg_table of linux/linux_main.c: a data scatter-gather list and a protection
 list are woven into one descriptor table, 512 data bytes followed by their 8 bytes of
 protection information (section 4.22 of T10 SBC-3).
 */
module DixInterleave {
  import opened Common

  const BLOCK := 512
  const PROTECTION := 8

  /** A run of `len` bytes of memory from `addr` on. */
  datatype Segment = Segment(addr: nat, len: nat)

  /** The addresses of the bytes a list of segments describes, in order. */
  function Bytes(sg: seq<Segment>): seq<nat> {
    if sg == [] then [] else Bytes(sg[..|sg| - 1]) + SegmentBytes(sg[|sg| - 1])
  }

  function SegmentBytes(s: Segment): seq<nat> { seq(s.len, i => s.addr + i) }

  /** What the hardware must see: block `j` of the data, then its protection, for `k` blocks. */
  function Woven(data: seq<nat>, prot: seq<nat>, k: nat): seq<nat>
    requires BLOCK * k <= |data| && PROTECTION * k <= |prot|
  {
    if k == 0 then []
    else Woven(data, prot, k - 1) + data[BLOCK * (k - 1)..BLOCK * k] + prot[PROTECTION * (k - 1)..PROTECTION * k]
  }

  predicate Positive(sg: seq<Segment>) { forall s <- sg :: s.len > 0 }

  lemma BytesSnoc(sg: seq<Segment>, s: Segment)
    ensures Bytes(sg + [s]) == Bytes(sg) + SegmentBytes(s)
  {
    assert (sg + [s])[..|sg|] == sg;
  }

  lemma {:induction false} BytesConcat(a: seq<Segment>, b: seq<Segment>)
    ensures Bytes(a + b) == Bytes(a) + Bytes(b)
  {
    if b == [] {
      assert a + b == a;
    } else {
      var n := |b| - 1;
      assert Bytes(b) == Bytes(b[..n]) + SegmentBytes(b[n]);
      BytesConcat(a, b[..n]);
      BytesSnoc(a + b[..n], b[n]);
      hide Bytes, SegmentBytes;
      assert a + b == (a + b[..n]) + [b[n]];
    }
  }

  /**
   A cursor into a segment list: `num` segments are used up and of the next one the part
   from `addr` on, `len` bytes, is left.  Past the last segment the code has read one entry
   beyond the list, so `addr` and `len` are then anything.
   */
  datatype Cursor = Cursor(num: nat, addr: nat, len: nat, pos: nat)

  /** The cursor stands `pos` bytes into the list. */
  ghost predicate At(c: Cursor, sg: seq<Segment>) {
    && c.num <= |sg|
    && c.pos <= |Bytes(sg)|
    && if c.num == |sg| then c.pos == |Bytes(sg)|
       else c.len > 0 && Bytes(sg)[c.pos..] == SegmentBytes(Segment(c.addr, c.len)) + Bytes(sg[c.num + 1..])
  }

  function LeftLen(x: nat, y: nat): nat
    requires y > 0
  {
    y - x % y
  }

  lemma NoBytes()
    ensures Bytes([]) == []
  {
  }

  lemma BytesHead(sg: seq<Segment>)
    requires sg != []
    ensures Bytes(sg) == SegmentBytes(sg[0]) + Bytes(sg[1..])
  {
    BytesConcat([sg[0]], sg[1..]);
    BytesSnoc([], sg[0]);
    assert [] + [sg[0]] == [sg[0]];
    hide Bytes, SegmentBytes;
    assert sg == [sg[0]] + sg[1..];
  }

  lemma StartsAt(sg: seq<Segment>)
    requires sg != [] && Positive(sg)
    ensures At(Cursor(0, sg[0].addr, sg[0].len, 0), sg)
  {
    BytesHead(sg);
    hide Bytes, SegmentBytes;
    assert Bytes(sg)[0..] == Bytes(sg);
  }

  /** Cutting `a` off what is left of `d` at `pos`. */
  lemma CutOff(d: seq<nat>, pos: nat, a: seq<nat>, b: seq<nat>)
    requires pos <= |d| && d[pos..] == a + b
    ensures pos + |a| <= |d| && d[pos..pos + |a|] == a && d[pos + |a|..] == b
  {
    assert d[pos..pos + |a|] == d[pos..][..|a|];
    assert d[pos + |a|..] == d[pos..][|a|..];
  }

  lemma SegmentSplit(addr: nat, len: nat, n: nat)
    requires n <= len
    ensures |SegmentBytes(Segment(addr, n))| == n
    ensures SegmentBytes(Segment(addr, len)) == SegmentBytes(Segment(addr, n)) + SegmentBytes(Segment(addr + n, len - n))
  {
  }

  /** Taking part of the current segment. */
  lemma TakesPart(c: Cursor, sg: seq<Segment>, n: nat)
    requires At(c, sg) && c.num < |sg| && 0 < n < c.len
    ensures c.pos + n <= |Bytes(sg)|
    ensures SegmentBytes(Segment(c.addr, n)) == Bytes(sg)[c.pos..c.pos + n]
    ensures At(c.(addr := c.addr + n, len := c.len - n, pos := c.pos + n), sg)
  {
    hide Bytes, SegmentBytes;
    var a, b := SegmentBytes(Segment(c.addr, n)), SegmentBytes(Segment(c.addr + n, c.len - n));
    SegmentSplit(c.addr, c.len, n);
    var tail := Bytes(sg[c.num + 1..]);
    assert a + b + tail == a + (b + tail);
    CutOff(Bytes(sg), c.pos, a, b + tail);
  }

  /** Taking the current segment to its end; `next` is what the code reads there. */
  lemma TakesAll(c: Cursor, sg: seq<Segment>, next: Segment)
    requires At(c, sg) && c.num < |sg| && Positive(sg)
    requires c.num + 1 < |sg| ==> next == sg[c.num + 1]
    ensures c.pos + c.len <= |Bytes(sg)|
    ensures SegmentBytes(Segment(c.addr, c.len)) == Bytes(sg)[c.pos..c.pos + c.len]
    ensures At(Cursor(c.num + 1, next.addr, next.len, c.pos + c.len), sg)
  {
    hide Bytes, SegmentBytes;
    var a := SegmentBytes(Segment(c.addr, c.len));
    var tail := sg[c.num + 1..];
    SegmentSplit(c.addr, c.len, c.len);
    NoBytes();
    if tail != [] {
      BytesHead(tail);
      assert tail[0] == sg[c.num + 1] && tail[1..] == sg[c.num + 2..];
    }
    CutOff(Bytes(sg), c.pos, a, Bytes(tail));
  }

  /** Bytes are left in the list, so the cursor is not past its last segment. */
  lemma NotAtEnd(c: Cursor, sg: seq<Segment>)
    requires At(c, sg) && c.pos < |Bytes(sg)|
    ensures c.num < |sg|
  {
  }

  lemma OffsetInUnit(start: nat, d: nat, unit: nat)
    requires (unit == BLOCK || unit == PROTECTION) && start % unit == 0 && d <= unit
    ensures (start + d) % unit == if d == unit then 0 else d
  {
    if unit == BLOCK {
      OffsetInBlock(start / 512, d);
    } else {
      OffsetInProtection(start / 8, d);
    }
  }

  lemma OffsetInBlock(q: nat, d: nat)
    requires d <= 512
    ensures (512 * q + d) % 512 == if d == 512 then 0 else d
  {
  }

  lemma OffsetInProtection(q: nat, d: nat)
    requires d <= 8
    ensures (8 * q + d) % 8 == if d == 8 then 0 else d
  {
  }

  /** One descriptor: up to `left` bytes, and no more than the current segment has. */
  method AppendPiece(sg: seq<Segment>, left: nat, table: seq<Segment>, start: Cursor) returns (table': seq<Segment>, c: Cursor)
    requires left > 0 && Positive(sg) && At(start, sg) && start.num < |sg|
    ensures At(c, sg) && start.pos < c.pos <= start.pos + left
    ensures Bytes(table') == Bytes(table) + Bytes(sg)[start.pos..c.pos]
    ensures Positive(table) ==> Positive(table')
    ensures |table'| == |table| + 1
    ensures c.num == start.num + 1 || (c.num == start.num && c.pos == start.pos + left)
  {
    if start.len > left {
      table' := table + [Segment(start.addr, left)];
      BytesSnoc(table, Segment(start.addr, left));
      TakesPart(start, sg, left);
      c := start.(len := start.len - left, addr := start.addr + left, pos := start.pos + left);
    } else {
      table' := table + [Segment(start.addr, start.len)];
      BytesSnoc(table, Segment(start.addr, start.len));
      var next: Segment := *;
      if start.num + 1 < |sg| {
        next := sg[start.num + 1];
      }
      TakesAll(start, sg, next);
      c := Cursor(start.num + 1, next.addr, next.len, start.pos + start.len);
    }
  }

  /**
   One inner do-while loop: descriptors for the bytes up to the next multiple of `unit`.
   At most one descriptor more than the segments used up on the way.
   */
  method AppendUnit(sg: seq<Segment>, unit: nat, table: seq<Segment>, start: Cursor) returns (table': seq<Segment>, c: Cursor)
    requires (unit == BLOCK || unit == PROTECTION) && Positive(sg) && At(start, sg)
    requires start.pos % unit == 0 && start.pos + unit <= |Bytes(sg)|
    ensures At(c, sg) && c.num <= |sg| && c.pos == start.pos + unit
    ensures Bytes(table') == Bytes(table) + Bytes(sg)[start.pos..c.pos]
    ensures Positive(table) ==> Positive(table')
    ensures |table'| + start.num + (if c.num == |sg| then 1 else 0) <= |table| + 1 + c.num
  {
    table', c := table, start;
    NotAtEnd(c, sg);
    OffsetInUnit(start.pos, 0, unit);
    hide Bytes, At;
    while true
      invariant At(c, sg) && c.num < |sg|
      invariant start.pos <= c.pos < start.pos + unit
      invariant c.pos % unit == c.pos - start.pos
      invariant c.pos <= |Bytes(sg)| && Bytes(table') == Bytes(table) + Bytes(sg)[start.pos..c.pos]
      invariant Positive(table) ==> Positive(table')
      invariant |table'| + start.num <= |table| + c.num
      decreases start.pos + unit - c.pos
    {
      ghost var before := c.pos;
      table', c := AppendPiece(sg, LeftLen(c.pos, unit), table', c);
      assert Bytes(sg)[start.pos..c.pos] == Bytes(sg)[start.pos..before] + Bytes(sg)[before..c.pos];
      OffsetInUnit(start.pos, c.pos - start.pos, unit);
      if c.pos % unit == 0 {
        break;
      }
      NotAtEnd(c, sg);
    }
  }

  lemma NothingWoven(before: seq<nat>, data: seq<nat>, prot: seq<nat>)
    ensures before + Woven(data, prot, 0) == before
  {
  }

  lemma WovenNext(before: seq<nat>, data: seq<nat>, prot: seq<nat>, k: nat)
    requires BLOCK * (k + 1) <= |data| && PROTECTION * (k + 1) <= |prot|
    ensures before + Woven(data, prot, k) + data[BLOCK * k..BLOCK * k + BLOCK] + prot[PROTECTION * k..PROTECTION * k + PROTECTION]
         == before + Woven(data, prot, k + 1)
  {
  }

  /** One pass of the outer loop: block `k` of the data and its protection. */
  method AppendBlock(dataSg: seq<Segment>, protSg: seq<Segment>, table: seq<Segment>, d: Cursor, p: Cursor, ghost k: nat)
    returns (table': seq<Segment>, d': Cursor, p': Cursor)
    requires Positive(dataSg) && Positive(protSg) && At(d, dataSg) && At(p, protSg)
    requires d.pos == BLOCK * k && p.pos == PROTECTION * k
    requires BLOCK * (k + 1) <= |Bytes(dataSg)| && PROTECTION * (k + 1) <= |Bytes(protSg)|
    ensures At(d', dataSg) && At(p', protSg) && d'.num <= |dataSg| && p'.num <= |protSg|
    ensures d'.pos == BLOCK * (k + 1) && p'.pos == PROTECTION * (k + 1)
    ensures Bytes(table') == Bytes(table) + Bytes(dataSg)[d.pos..d'.pos] + Bytes(protSg)[p.pos..p'.pos]
    ensures Positive(table) ==> Positive(table')
    ensures |table'| + d.num + p.num + (if d'.num == |dataSg| then 1 else 0) + (if p'.num == |protSg| then 1 else 0)
         <= |table| + 2 + d'.num + p'.num
  {
    hide Bytes, At, Positive;
    assert d.pos % BLOCK == 0 && p.pos % PROTECTION == 0;
    table', d' := AppendUnit(dataSg, BLOCK, table, d);
    table', p' := AppendUnit(protSg, PROTECTION, table', p);
  }

  /**
   The whole weaving.  The caller has checked that the protection list covers the data
   (linux_main.c:1271) and the midlayer that the data list holds at least `dataLen` bytes.
   `complete` is the final check of the C function, which reports an error when false.
   */
  method AppendIntersectSgTable(dataSg: seq<Segment>, protSg: seq<Segment>, table: seq<Segment>, dataLen: nat)
    returns (table': seq<Segment>, complete: bool)
    requires dataSg != [] && protSg != [] && Positive(dataSg) && Positive(protSg)
    requires dataLen == |Bytes(protSg)| / PROTECTION * BLOCK && dataLen <= |Bytes(dataSg)|
    ensures complete
    ensures Bytes(table') == Bytes(table) + Woven(Bytes(dataSg), Bytes(protSg), dataLen / BLOCK)
    ensures Positive(table) ==> Positive(table')
    ensures var k := dataLen / BLOCK;
      if k == 0 then table' == table else |table'| <= |table| + 2 * k + |dataSg| + |protSg| - 2
  {
    hide Bytes, At, Woven;
    table' := table;
    var d := Cursor(0, dataSg[0].addr, dataSg[0].len, 0);
    var p := Cursor(0, protSg[0].addr, protSg[0].len, 0);
    StartsAt(dataSg);
    StartsAt(protSg);
    NothingWoven(Bytes(table), Bytes(dataSg), Bytes(protSg));
    ghost var k := 0;
    while d.pos < dataLen
      invariant At(d, dataSg) && At(p, protSg) && d.num <= |dataSg| && p.num <= |protSg|
      invariant d.pos == BLOCK * k <= dataLen && p.pos == PROTECTION * k
      invariant Bytes(table') == Bytes(table) + Woven(Bytes(dataSg), Bytes(protSg), k)
      invariant Positive(table) ==> Positive(table')
      invariant k == 0 ==> table' == table
      invariant k == 0
             || |table'| + (if d.num == |dataSg| then 1 else 0) + (if p.num == |protSg| then 1 else 0)
                <= |table| + 2 * k + d.num + p.num
      invariant k == 0 ==> d.num == 0 && p.num == 0
      decreases dataLen - d.pos
    {
      table', d, p := AppendBlock(dataSg, protSg, table', d, p, k);
      WovenNext(Bytes(table), Bytes(dataSg), Bytes(protSg), k);
      k := k + 1;
    }
    complete := d.pos == dataLen && p.pos == dataLen / BLOCK * PROTECTION;
  }

  /** Byte by byte: 520-byte blocks, the first 512 from the data and the last 8 from the protection list. */
  lemma {:induction false} WovenByte(data: seq<nat>, prot: seq<nat>, k: nat, j: nat, i: nat)
    requires BLOCK * k <= |data| && PROTECTION * k <= |prot| && j < k && i < BLOCK + PROTECTION
    ensures |Woven(data, prot, k)| == (BLOCK + PROTECTION) * k
    ensures Woven(data, prot, k)[(BLOCK + PROTECTION) * j + i]
         == if i < BLOCK then data[BLOCK * j + i] else prot[PROTECTION * j + i - BLOCK]
  {
    if k == 1 {
      assert |Woven(data, prot, 0)| == 0;
    } else {
      WovenByte(data, prot, k - 1, if j < k - 1 then j else 0, i);
    }
  }

  /** The sum of the segment lengths, as the C code adds them up. */
  method TotalLength(sg: seq<Segment>) returns (total: nat)
    ensures total == |Bytes(sg)|
  {
    total := 0;
    var i := 0;
    while i < |sg|
      invariant i <= |sg| && total == |Bytes(sg[..i])|
    {
      BytesSnoc(sg[..i], sg[i]);
      assert sg[..i + 1] == sg[..i] + [sg[i]];
      total := total + sg[i].len;
      i := i + 1;
    }
    assert sg[..i] == sg;
  }

  lemma WholeBlocks(protLen: nat, dataLen: nat)
    ensures protLen / 8 * 512 == dataLen
       <==> dataLen % 512 == 0 && 8 * (dataLen / 512) <= protLen < 8 * (dataLen / 512 + 1)
  {
  }

  /**
   The DIX branch of generate_sg_table: weave when the protection list has 8 bytes, and
   fewer than 8 more, for every 512 bytes of data; otherwise the table is left alone here.
   */
  method GenerateDixTable(dataSg: seq<Segment>, protSg: seq<Segment>, table: seq<Segment>, dataLen: nat)
    returns (table': seq<Segment>, woven: bool)
    requires Positive(dataSg) && Positive(protSg)
    requires 0 < dataLen <= |Bytes(dataSg)|
    ensures woven <==> dataLen % BLOCK == 0 && PROTECTION * (dataLen / BLOCK) <= |Bytes(protSg)| < PROTECTION * (dataLen / BLOCK + 1)
    ensures woven ==> Bytes(table') == Bytes(table) + Woven(Bytes(dataSg), Bytes(protSg), dataLen / BLOCK)
    ensures !woven ==> table' == table
  {
    hide Bytes, Positive, Woven;
    var protLen := TotalLength(protSg);
    WholeBlocks(protLen, dataLen);
    if protLen / PROTECTION * BLOCK != dataLen {
      return table, false;
    }
    NoBytes();
    assert dataSg != [] && protSg != [];
    var complete;
    table', complete := AppendIntersectSgTable(dataSg, protSg, table, dataLen);
    woven := true;
  }
}
