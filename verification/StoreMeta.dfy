/** Store metas of one queue (phxqueue/store/storemeta.cpp): an ordered set of instance ids,
    each carrying a running index and a crc chained to its predecessor. */
module StoreMetas {
  import opened CursorId
  import opened Numbers

  const NO_META := StoreMeta(NO_CURSOR, 0, 0)

  /** `idx` is handed around as a C++ int: 32 bits, taken to wrap. */
  datatype StoreMeta = StoreMeta(cursor: u64, idx: int, crc: int)

  /** Links a predecessor's crc and a cursor id to a crc: crc32 in the source. */
  type Link = (int, u64) -> int

  /** What the source keeps per queue: the ordered metas, and the furthest meta handed out. */
  datatype MetaQueue = MetaQueue(metas: seq<StoreMeta>, last: StoreMeta)

  const EMPTY_QUEUE := MetaQueue([], NO_META)

  // ---------------------------------------------------------------- ordered cursors

  function Cursors(metas: seq<StoreMeta>): (r: seq<u64>)
    ensures |r| == |metas|
    ensures forall k :: 0 <= k < |r| ==> r[k] == metas[k].cursor
  {
    seq(|metas|, k requires 0 <= k < |metas| => metas[k].cursor)
  }

  ghost predicate Sorted(s: seq<u64>) {
    && (forall i, j :: 0 <= i < j < |s| ==> s[i] < s[j])
    && (forall i :: 0 <= i < |s| ==> s[i] != NO_CURSOR)
  }

  /** std::set::upper_bound: the first position holding something above `c`. */
  function UpperBound(s: seq<u64>, c: u64): (n: nat)
    requires Sorted(s)
    ensures n <= |s|
    ensures forall i :: 0 <= i < n ==> s[i] <= c
    ensures forall i :: n <= i < |s| ==> c < s[i]
  {
    if s == [] || c < s[0] then 0 else 1 + UpperBound(s[1..], c)
  }

  /** std::set::lower_bound: the first position holding something not below `c`. */
  function LowerBound(s: seq<u64>, c: u64): (n: nat)
    requires Sorted(s)
    ensures n <= |s|
    ensures forall i :: 0 <= i < n ==> s[i] < c
    ensures forall i :: n <= i < |s| ==> c <= s[i]
  {
    if s == [] || c <= s[0] then 0 else 1 + LowerBound(s[1..], c)
  }

  lemma UpperBoundIs(s: seq<u64>, c: u64, n: nat)
    requires Sorted(s) && n <= |s|
    requires n > 0 ==> s[n - 1] <= c
    requires n < |s| ==> c < s[n]
    ensures UpperBound(s, c) == n
  {
  }

  /** Where Next(c) looks: the front for the sentinel, otherwise the first meta above `c`. */
  function NextPos(s: seq<u64>, c: u64): (n: nat)
    requires Sorted(s)
    ensures n <= |s|
  {
    if c == NO_CURSOR then 0 else UpperBound(s, c)
  }

  lemma NextIsNearest(s: seq<u64>, c: u64, i: u64)
    requires Sorted(s) && NextPos(s, c) < |s| && After(c) <= i && i in s
    ensures s[NextPos(s, c)] <= i
  {
  }

  /** PushBack seen on the cursors alone. */
  function PushCursor(s: seq<u64>, c: u64): seq<u64> {
    if c == NO_CURSOR || (s != [] && c <= s[|s| - 1]) then s else s + [c]
  }

  lemma PushAbove(s: seq<u64>, i: u64)
    requires i != NO_CURSOR && forall m :: m in s ==> m < i
    ensures PushCursor(s, i) == s + [i]
    ensures Sorted(s) ==> Sorted(s + [i])
    ensures forall m :: m in s + [i] <==> m in s || m == i
  {
    assert s != [] ==> s[|s| - 1] in s;
  }

  /** EraseFrontTill seen on the cursors alone. */
  function EraseTill(s: seq<u64>, c: u64): seq<u64>
    requires Sorted(s)
  {
    if c == NO_CURSOR then s else s[UpperBound(s, c)..]
  }

  // ---------------------------------------------------------------- whole-state specification

  ghost predicate Ordered(q: MetaQueue) { Sorted(Cursors(q.metas)) }

  function Push(q: MetaQueue, c: u64, link: Link): MetaQueue {
    if c == NO_CURSOR || (q.metas != [] && c <= q.metas[|q.metas| - 1].cursor) then q
    else if q.metas != [] then
      var pre := q.metas[|q.metas| - 1];
      q.(metas := q.metas + [StoreMeta(c, Wrap32(pre.idx + 1), link(pre.crc, c))])
    else
      q.(metas := [StoreMeta(c, 0, link(q.last.crc, c))])
  }

  function Erase(q: MetaQueue, c: u64): MetaQueue
    requires Ordered(q)
  {
    if c == NO_CURSOR then q else q.(metas := q.metas[UpperBound(Cursors(q.metas), c)..])
  }

  /** Remember `m` as dequeued unless something at or after it already was. */
  function Dequeued(q: MetaQueue, m: StoreMeta): MetaQueue {
    if q.last.cursor == NO_CURSOR || q.last.cursor < m.cursor then q.(last := m) else q
  }

  function CrcPass(q: MetaQueue, m: StoreMeta, link: Link): bool {
    q.last.cursor != NO_CURSOR && q.last.cursor < m.cursor ==> m.crc == link(q.last.crc, m.cursor)
  }

  function SyncDequeued(q: MetaQueue, c: u64): MetaQueue
    requires Ordered(q)
  {
    var n := LowerBound(Cursors(q.metas), c);
    if c == NO_CURSOR || n == |q.metas| then q else Dequeued(q, q.metas[n])
  }

  /** Forget what was dequeued. */
  function Cleared(q: MetaQueue): MetaQueue { if q.last.cursor == NO_CURSOR then q else q.(last := NO_META) }

  /** What a replicated sync value leaves as dequeued, given the largest prev it carried for the queue. */
  function Marked(q: MetaQueue, maxPrev: u64): MetaQueue
    requires Ordered(q)
  {
    if maxPrev == NO_CURSOR then Cleared(q) else SyncDequeued(q, maxPrev)
  }

  // ---------------------------------------------------------------- the class

  /** The first meta at or above `lo`. */
  ghost predicate FirstFrom(metas: seq<StoreMeta>, lo: nat, m: StoreMeta) {
    m in metas && lo <= m.cursor && forall l :: l in metas && lo <= l.cursor ==> m.cursor <= l.cursor
  }

  lemma PositionIsFirst(metas: seq<StoreMeta>, lo: nat, n: nat)
    requires Sorted(Cursors(metas)) && n <= |metas|
    requires forall i :: 0 <= i < n ==> metas[i].cursor < lo
    requires forall i :: n <= i < |metas| ==> lo <= metas[i].cursor
    ensures n < |metas| <==> exists m :: m in metas && lo <= m.cursor
    ensures n < |metas| ==> FirstFrom(metas, lo, metas[n])
  {
    var s := Cursors(metas);
    forall m | m in metas && lo <= m.cursor ensures n < |metas| && metas[n].cursor <= m.cursor {
      var k :| 0 <= k < |metas| && metas[k] == m;
      assert s[n] <= s[k];
    }
    if n < |metas| { assert metas[n] in metas; }
  }

  lemma SameFirst(metas: seq<StoreMeta>, lo: nat)
    requires Sorted(Cursors(metas))
    ensures forall a, b :: FirstFrom(metas, lo, a) && FirstFrom(metas, lo, b) ==> a == b
  {
    var s := Cursors(metas);
    forall a, b | FirstFrom(metas, lo, a) && FirstFrom(metas, lo, b) ensures a == b {
      var i, j :| 0 <= i < |metas| && 0 <= j < |metas| && metas[i] == a && metas[j] == b;
      assert s[i] == s[j];
    }
  }

  lemma NextIs(metas: seq<StoreMeta>, c: u64)
    requires Sorted(Cursors(metas))
    ensures var n := NextPos(Cursors(metas), c);
      (n < |metas| <==> exists m :: m in metas && After(c) <= m.cursor)
        && (n < |metas| ==> FirstFrom(metas, After(c), metas[n]))
  {
    var s := Cursors(metas);
    assert forall i :: 0 <= i < |s| ==> s[i] == metas[i].cursor;
    PositionIsFirst(metas, After(c), NextPos(s, c));
  }

  lemma LowerBoundIs(metas: seq<StoreMeta>, c: u64)
    requires Sorted(Cursors(metas))
    ensures var n := LowerBound(Cursors(metas), c);
      (n < |metas| <==> exists m :: m in metas && c <= m.cursor) && (n < |metas| ==> FirstFrom(metas, c, metas[n]))
  {
    var s := Cursors(metas);
    assert forall i :: 0 <= i < |s| ==> s[i] == metas[i].cursor;
    PositionIsFirst(metas, c, LowerBound(s, c));
  }

  class StoreMetaQueue {
    var metas: seq<StoreMeta>
    var last: StoreMeta
    const crc32: Link

    ghost function State(): MetaQueue reads this { MetaQueue(metas, last) }

    ghost predicate Valid() reads this { Ordered(State()) && Consecutive(State()) }

    constructor (crc32: Link)
      ensures Valid() && State() == EMPTY_QUEUE && this.crc32 == crc32
    {
      this.crc32 := crc32;
      metas := [];
      last := NO_META;
    }

    method Next(cursor: u64) returns (found: bool, next: StoreMeta, crcPass: bool)
      requires Valid()
      modifies this`last
      ensures Valid()
      ensures found <==> NextPos(Cursors(metas), cursor) < |metas|
      ensures found ==> next == metas[NextPos(Cursors(metas), cursor)]
      ensures found ==> State() == Dequeued(old(State()), next)
      ensures found ==> crcPass == CrcPass(old(State()), next, crc32)
      ensures !found ==> State() == old(State()) && crcPass
      ensures found <==> exists m :: m in metas && After(cursor) <= m.cursor
      ensures found ==> FirstFrom(metas, After(cursor), next)
      ensures var was := old(last); var ahead := was.cursor == NO_CURSOR || was.cursor < next.cursor;
        && last == (if found && ahead then next else was)
        && (crcPass <==> !found || was.cursor == NO_CURSOR || !ahead || next.crc == crc32(was.crc, next.cursor))
    {
      NextIs(metas, cursor);
      crcPass := true;
      found := false;
      next := NO_META;
      if metas == [] { return; }
      var n := NextPos(Cursors(metas), cursor);
      if n == |metas| { return; }
      found := true;
      next := metas[n];
      if last.cursor != NO_CURSOR && last.cursor < next.cursor {
        crcPass := next.crc == crc32(last.crc, next.cursor);
      }
      if last.cursor == NO_CURSOR || last.cursor < next.cursor {
        last := next;
      }
    }

    method PushBack(cursor: u64) returns (ok: bool)
      requires Valid()
      modifies this`metas
      ensures Valid()
      ensures State() == Push(old(State()), cursor, crc32)
      ensures Cursors(metas) == PushCursor(old(Cursors(metas)), cursor)
      ensures ok <==> cursor != NO_CURSOR && forall k :: 0 <= k < |old(metas)| ==> old(metas)[k].cursor < cursor
      ensures last == old(last) && if !ok then metas == old(metas) else
        && |metas| == |old(metas)| + 1 && metas[..|old(metas)|] == old(metas)
        && var n := |old(metas)|;
           metas[n] == StoreMeta(cursor, if n == 0 then 0 else Wrap32(old(metas)[n - 1].idx + 1),
             crc32(if n == 0 then last.crc else old(metas)[n - 1].crc, cursor))
    {
      if cursor == NO_CURSOR { return false; }
      if metas != [] && cursor <= metas[|metas| - 1].cursor { return false; }
      var meta := StoreMeta(cursor, 0, 0);
      if metas != [] {
        var pre := metas[|metas| - 1];
        meta := meta.(crc := crc32(pre.crc, cursor));
        meta := meta.(idx := Wrap32(pre.idx + 1));
      } else {
        meta := meta.(crc := crc32(last.crc, cursor));
      }
      assert forall k :: 0 <= k < |metas| ==> metas[k].cursor == Cursors(metas)[k];
      PushKeepsConsecutive(State(), cursor, crc32);
      hide Consecutive, Wrap32;
      metas := metas + [meta];
      return true;
    }

    method Front() returns (found: bool, meta: StoreMeta)
      requires Valid()
      ensures found <==> metas != []
      ensures found ==> meta == metas[0] && forall k :: 0 <= k < |metas| ==> meta.cursor <= metas[k].cursor
    {
      if metas == [] { return false, NO_META; }
      assert forall k :: 0 <= k < |metas| ==> metas[k].cursor == Cursors(metas)[k];
      return true, metas[0];
    }

    method Back() returns (found: bool, meta: StoreMeta)
      requires Valid()
      ensures found <==> metas != []
      ensures found ==> meta in metas && forall k :: 0 <= k < |metas| ==> metas[k].cursor <= meta.cursor
    {
      if metas == [] { return false, NO_META; }
      assert forall k :: 0 <= k < |metas| ==> metas[k].cursor == Cursors(metas)[k];
      return true, metas[|metas| - 1];
    }

    method EraseFrontTill(cursor: u64)
      requires Valid()
      modifies this`metas
      ensures Valid()
      ensures State() == Erase(old(State()), cursor)
      ensures Cursors(metas) == EraseTill(old(Cursors(metas)), cursor)
      ensures cursor == NO_CURSOR ==> metas == old(metas)
      ensures cursor != NO_CURSOR ==> forall m :: m in metas <==> m in old(metas) && cursor < m.cursor
    {
      if cursor == NO_CURSOR { return; }
      if metas == [] { return; }
      var n := UpperBound(Cursors(metas), cursor);
      assert Cursors(metas[n..]) == Cursors(metas)[n..];
      SuffixKeepsConsecutive(State(), n);
      if n == |metas| { metas := []; } else { metas := metas[n..]; }
    }

    method Clear()
      requires Valid()
      modifies this`metas
      ensures Valid() && State() == old(State()).(metas := [])
    {
      metas := [];
    }

    method UpdateDequeueStat(cursor: u64)
      requires Valid()
      modifies this`last
      ensures Valid() && State() == SyncDequeued(old(State()), cursor)
      ensures cursor == NO_CURSOR || (forall m :: m in metas ==> m.cursor < cursor) ==> last == old(last)
      ensures cursor != NO_CURSOR ==> forall m :: FirstFrom(metas, cursor, m) ==>
        last == if old(last).cursor == NO_CURSOR || old(last).cursor < m.cursor then m else old(last)
    {
      LowerBoundIs(metas, cursor);
      SameFirst(metas, cursor);
      hide FirstFrom, Consecutive;
      if cursor == NO_CURSOR { return; }
      var n := LowerBound(Cursors(metas), cursor);
      if n == |metas| { return; }
      if last.cursor == NO_CURSOR || last.cursor < metas[n].cursor {
        last := metas[n];
      }
    }

    method ClearDequeueStat()
      requires Valid()
      modifies this`last
      ensures Valid() && State() == Cleared(old(State())) && last.cursor == NO_CURSOR && metas == old(metas)
    {
      if last.cursor != NO_CURSOR { last := NO_META; }
    }

    method Size() returns (n: nat)
      ensures n == |metas|
    {
      n := |metas|;
    }

    /** Subtracting 32-bit indexes counts the metas above the cursor, exactly if and only if their
        number is an int. */
    method SizeGT(cursor: u64) returns (n: int)
      requires Valid()
      ensures n == Wrap32(CountAbove(Cursors(metas), cursor))
      ensures n == CountAbove(Cursors(metas), cursor) <==> CountAbove(Cursors(metas), cursor) < 0x8000_0000
    {
      SizeAboveCounts(State(), cursor);
      WrapIsExact(CountAbove(Cursors(metas), cursor));
      var pos := UpperBound(Cursors(metas), cursor);
      if pos == |metas| { return 0; }
      return Wrap32(metas[|metas| - 1].idx - metas[pos].idx + 1);
    }
  }

  // ---------------------------------------------------------------- runs of one queue

  function SizeAbove(q: MetaQueue, c: u64): int
    requires Ordered(q)
  {
    var pos := UpperBound(Cursors(q.metas), c);
    if pos == |q.metas| then 0
    else Wrap32(q.metas[|q.metas| - 1].idx - q.metas[pos].idx + 1)
  }

  /** How many cursors really lie above `c`. */
  function CountAbove(s: seq<u64>, c: u64): (n: nat)
    ensures n <= |s|
  {
    if s == [] then 0 else (if c < s[0] then 1 else 0) + CountAbove(s[1..], c)
  }

  datatype Op = PushOp(c: u64) | EraseOp(c: u64) | ClearOp | ReadOp(c: u64) | SyncOp(c: u64) | ClearStatOp

  /** One operation; a read that finds nothing changes nothing. */
  function Apply(q: MetaQueue, op: Op, link: Link): (r: MetaQueue)
    requires Ordered(q)
    ensures Ordered(r)
  {
    match op
    case PushOp(c) => PushKeepsOrder(q, c, link); Push(q, c, link)
    case EraseOp(c) => EraseKeepsOrder(q, c); Erase(q, c)
    case ClearOp => q.(metas := [])
    case ReadOp(c) =>
      var n := NextPos(Cursors(q.metas), c);
      if n < |q.metas| then Dequeued(q, q.metas[n]) else q
    case SyncOp(c) => SyncDequeued(q, c)
    case ClearStatOp => Cleared(q)
  }

  function Run(q: MetaQueue, ops: seq<Op>, link: Link): (r: MetaQueue)
    requires Ordered(q)
    ensures Ordered(r)
    decreases |ops|
  {
    if ops == [] then q else Run(Apply(q, ops[0], link), ops[1..], link)
  }

  lemma PushKeepsOrder(q: MetaQueue, c: u64, link: Link)
    requires Ordered(q)
    ensures Ordered(Push(q, c, link))
    ensures Cursors(Push(q, c, link).metas) == PushCursor(Cursors(q.metas), c)
  {
  }

  lemma EraseKeepsOrder(q: MetaQueue, c: u64)
    requires Ordered(q)
    ensures Ordered(Erase(q, c))
    ensures Cursors(Erase(q, c).metas) == EraseTill(Cursors(q.metas), c)
  {
  }

  /** Indexes are consecutive, modulo their 32 bits. */
  ghost predicate Consecutive(q: MetaQueue) {
    forall k :: 0 <= k < |q.metas| ==> q.metas[k].idx == Wrap32(q.metas[0].idx + k)
  }

  lemma PushKeepsConsecutive(q: MetaQueue, c: u64, link: Link)
    requires Ordered(q) && Consecutive(q)
    ensures Consecutive(Push(q, c, link))
  {
    var r := Push(q, c, link);
    if q.metas != [] && r != q {
      var n := |q.metas|;
      WrapTwice(q.metas[0].idx + (n - 1), 1);
      hide Wrap32;
      assert q.metas[n - 1].idx == Wrap32(q.metas[0].idx + (n - 1));
    }
  }

  lemma SuffixKeepsConsecutive(q: MetaQueue, n: nat)
    requires n <= |q.metas| && Consecutive(q)
    ensures Consecutive(q.(metas := q.metas[n..]))
  {
    hide Wrap32;
    var r := q.metas[n..];
    forall k | 0 <= k < |r| ensures r[k].idx == Wrap32(r[0].idx + k) {
      WrapTwice(q.metas[0].idx + n, k);
      assert q.metas[n].idx == Wrap32(q.metas[0].idx + n);
      assert q.metas[n + k].idx == Wrap32(q.metas[0].idx + (n + k));
    }
  }

  lemma ApplyKeepsConsecutive(q: MetaQueue, op: Op, link: Link)
    requires Ordered(q) && Consecutive(q)
    ensures Consecutive(Apply(q, op, link))
  {
    hide Wrap32;
    match op
    case PushOp(c) => PushKeepsConsecutive(q, c, link);
    case EraseOp(c) =>
      if c != NO_CURSOR { SuffixKeepsConsecutive(q, UpperBound(Cursors(q.metas), c)); }
    case _ =>
  }

  lemma RunKeepsConsecutive(q: MetaQueue, ops: seq<Op>, link: Link)
    requires Ordered(q) && Consecutive(q)
    ensures Consecutive(Run(q, ops, link))
    decreases |ops|
  {
    if ops != [] {
      ApplyKeepsConsecutive(q, ops[0], link);
      RunKeepsConsecutive(Apply(q, ops[0], link), ops[1..], link);
    }
  }

  lemma {:induction false} CountAboveIsSuffix(s: seq<u64>, c: u64)
    requires Sorted(s)
    ensures CountAbove(s, c) == |s| - UpperBound(s, c)
  {
    if s != [] {
      CountAboveIsSuffix(s[1..], c);
      if c < s[0] { assert UpperBound(s[1..], c) == 0; }
    }
  }

  lemma IndexDifference(q: MetaQueue, pos: nat)
    requires Consecutive(q) && pos < |q.metas|
    ensures Wrap32(q.metas[|q.metas| - 1].idx - q.metas[pos].idx + 1) == Wrap32(|q.metas| - pos)
  {
    var n := |q.metas| - 1;
    WrapDifference(q.metas[0].idx + n, q.metas[0].idx + pos);
    hide Wrap32;
    assert q.metas[n].idx == Wrap32(q.metas[0].idx + n);
    assert q.metas[pos].idx == Wrap32(q.metas[0].idx + pos);
  }

  lemma SizeAboveCounts(q: MetaQueue, c: u64)
    requires Ordered(q) && Consecutive(q)
    ensures SizeAbove(q, c) == Wrap32(CountAbove(Cursors(q.metas), c))
  {
    WrapIsExact(0);
    hide Wrap32;
    CountAboveIsSuffix(Cursors(q.metas), c);
    var pos := UpperBound(Cursors(q.metas), c);
    if pos < |q.metas| { IndexDifference(q, pos); }
  }

  /** After any run on a new queue, subtracting indexes counts the metas above a cursor, as far as
      32 bits can show: exactly, if and only if that count is an int. */
  lemma IndexesCountMetas(ops: seq<Op>, link: Link, c: u64)
    ensures var q := Run(EMPTY_QUEUE, ops, link);
      var n := CountAbove(Cursors(q.metas), c);
      && SizeAbove(q, c) == Wrap32(n)
      && (SizeAbove(q, c) == n <==> n < 0x8000_0000)
  {
    RunKeepsConsecutive(EMPTY_QUEUE, ops, link);
    hide Run, SizeAbove, CountAbove, Wrap32, Consecutive;
    var q := Run(EMPTY_QUEUE, ops, link);
    SizeAboveCounts(q, c);
    WrapIsExact(CountAbove(Cursors(q.metas), c));
  }

  /** Adds with the cursors first, first + 1, ... */
  function Pushes(first: u64, n: nat): seq<Op>
    requires first + n <= NO_CURSOR
    decreases n
  {
    if n == 0 then [] else [PushOp(first)] + Pushes(first + 1, n - 1)
  }

  lemma {:induction false} PushesCount(q: MetaQueue, first: u64, n: nat, link: Link)
    requires Ordered(q) && 0 < first && first + n <= NO_CURSOR
    requires forall k :: 0 <= k < |q.metas| ==> 0 < q.metas[k].cursor < first
    ensures var r := Run(q, Pushes(first, n), link); CountAbove(Cursors(r.metas), 0) == |q.metas| + n
    decreases n
  {
    if n == 0 {
      CountAboveIsSuffix(Cursors(q.metas), 0);
    } else {
      var p := Push(q, first, link);
      PushKeepsOrder(q, first, link);
      assert Pushes(first, n)[1..] == Pushes(first + 1, n - 1);
      assert Apply(q, PushOp(first), link) == p;
      PushesCount(p, first + 1, n - 1, link);
    }
  }

  lemma BacklogOf(n: nat, link: Link) returns (ops: seq<Op>)
    requires n < NO_CURSOR
    ensures var q := Run(EMPTY_QUEUE, ops, link); CountAbove(Cursors(q.metas), 0) == n && SizeAbove(q, 0) == Wrap32(n)
  {
    ops := Pushes(1, n);
    PushesCount(EMPTY_QUEUE, 1, n, link);
    IndexesCountMetas(ops, link, 0);
  }

  /** The bound is real: 2^31 adds are counted as -2^31. */
  lemma BacklogTurnsNegative(link: Link) returns (ops: seq<Op>)
    ensures var q := Run(EMPTY_QUEUE, ops, link);
      CountAbove(Cursors(q.metas), 0) == 0x8000_0000 && SizeAbove(q, 0) == -0x8000_0000
  {
    ops := BacklogOf(0x8000_0000, link);
  }
}
