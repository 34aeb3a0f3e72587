/** Queues by rank, rotation over retries, and the ladder of queue infos
    (phxqueue/config/topicconfig.cpp:404-445 and 481-503, phxqueue/producer/selector.cpp:76-92). */
module Ranks {
  import opened CursorId
  import opened Numbers
  import opened Options

  /** Both ends belong to the range. */
  datatype Range = Range(first: int32, last: int32)

  // ---------------------------------------------------------------- ranks

  function Width(r: Range): int { r.last - r.first + 1 }

  /** Sorted by the configuration, each with at least one queue, none twice. */
  ghost predicate Proper(ranges: seq<Range>) {
    && (forall i :: 0 <= i < |ranges| ==> ranges[i].first <= ranges[i].last)
    && (forall i, j :: 0 <= i < j < |ranges| ==> ranges[i].last < ranges[j].first)
  }

  predicate InRange(q: int, r: Range) { r.first <= q <= r.last }

  ghost predicate Has(ranges: seq<Range>, q: int) { exists i :: 0 <= i < |ranges| && InRange(q, ranges[i]) }

  function NQueue(ranges: seq<Range>): int { if ranges == [] then 0 else Width(ranges[0]) + NQueue(ranges[1..]) }

  /** A negative int taken for an unsigned 64-bit integer. */
  function Unsigned(x: int): nat
    requires -TWO_64 <= x
  {
    if x < 0 then x + TWO_64 else x
  }

  function QueueByRank(ranges: seq<Range>, rank: nat): Option<int>
    decreases |ranges|
  {
    if ranges == [] then None
    else
      var w := Unsigned(Width(ranges[0]));
      if rank < w then Some(Wrap32(ranges[0].first + rank)) else QueueByRank(ranges[1..], rank - w)
  }

  method GetNQueue(ranges: seq<Range>) returns (n: int)
    ensures n == NQueue(ranges)
  {
    n := 0;
    var i := 0;
    while i < |ranges|
      invariant 0 <= i <= |ranges| && n + NQueue(ranges[i..]) == NQueue(ranges)
    {
      assert ranges[i..][0] == ranges[i] && ranges[i..][1..] == ranges[i + 1..];
      n := n + (ranges[i].last - ranges[i].first + 1);
      i := i + 1;
    }
    assert ranges[i..] == [];
  }

  method GetQueueByRank(ranges: seq<Range>, rank: nat) returns (queue: Option<int>)
    ensures queue == QueueByRank(ranges, rank)
  {
    var r: nat := rank;
    var i := 0;
    while i < |ranges|
      invariant 0 <= i <= |ranges| && QueueByRank(ranges[i..], r) == QueueByRank(ranges, rank)
    {
      assert ranges[i..][0] == ranges[i] && ranges[i..][1..] == ranges[i + 1..];
      var w := Unsigned(ranges[i].last - ranges[i].first + 1);
      if r >= w { r := r - w; } else { return Some(Wrap32(ranges[i].first + r)); }
      i := i + 1;
    }
    assert ranges[i..] == [];
    return None;
  }

  lemma ProperTail(ranges: seq<Range>)
    requires Proper(ranges) && ranges != []
    ensures Proper(ranges[1..]) && Width(ranges[0]) >= 1
    ensures forall q :: Has(ranges, q) <==> InRange(q, ranges[0]) || Has(ranges[1..], q)
    ensures forall q :: Has(ranges[1..], q) ==> ranges[0].last < q
  {
  }

  lemma QueueOfFirst(ranges: seq<Range>, rank: nat)
    requires Proper(ranges) && ranges != []
    ensures var w := Width(ranges[0]);
      && w >= 1
      && QueueByRank(ranges, rank) == if rank < w
        then Some(ranges[0].first + rank) else QueueByRank(ranges[1..], rank - w)
  {
  }

  /** A rank names a queue exactly when it is below the number of queues, and the queue is in a range. */
  lemma {:induction false} RankIsDefined(ranges: seq<Range>, rank: nat)
    requires Proper(ranges)
    ensures QueueByRank(ranges, rank).Some? <==> rank < NQueue(ranges)
    ensures QueueByRank(ranges, rank).Some? ==> Has(ranges, QueueByRank(ranges, rank).value)
    ensures NQueue(ranges) >= 0
    decreases |ranges|
  {
    if ranges != [] {
      ProperTail(ranges);
      QueueOfFirst(ranges, rank);
      var w := Width(ranges[0]);
      RankIsDefined(ranges[1..], if rank < w then 0 else rank - w);
      hide QueueByRank, Has, Proper;
      if rank < w { assert InRange(ranges[0].first + rank, ranges[0]); }
    }
  }

  /** Ranks follow the order of the queues. */
  lemma {:induction false} RankIsIncreasing(ranges: seq<Range>, a: nat, b: nat)
    requires Proper(ranges) && a < b < NQueue(ranges)
    ensures QueueByRank(ranges, a).Some? && QueueByRank(ranges, b).Some?
    ensures QueueByRank(ranges, a).value < QueueByRank(ranges, b).value
    decreases |ranges|
  {
    hide Has, Wrap32;
    RankIsDefined(ranges, a);
    RankIsDefined(ranges, b);
    if ranges != [] {
      ProperTail(ranges);
      QueueOfFirst(ranges, a);
      QueueOfFirst(ranges, b);
      hide QueueByRank, Has, Proper;
      var w := Width(ranges[0]);
      if a >= w {
        RankIsIncreasing(ranges[1..], a - w, b - w);
      } else if b >= w {
        RankIsDefined(ranges[1..], b - w);
      }
    }
  }

  /** Every queue has a rank. */
  lemma {:induction false} RankOf(ranges: seq<Range>, q: int) returns (rank: nat)
    requires Proper(ranges) && Has(ranges, q)
    ensures rank < NQueue(ranges) && QueueByRank(ranges, rank) == Some(q)
    decreases |ranges|
  {
    ProperTail(ranges);
    if InRange(q, ranges[0]) {
      rank := q - ranges[0].first;
    } else {
      rank := RankOf(ranges[1..], q);
      rank := rank + Width(ranges[0]);
    }
    QueueOfFirst(ranges, rank);
    RankIsDefined(ranges, rank);
  }

  // ---------------------------------------------------------------- rotation

  function QueueByLoopRank(ranges: seq<Range>, rank: nat): Option<int> {
    var n := NQueue(ranges);
    if n == 0 || n <= -TWO_64 then None else QueueByRank(ranges, rank % Unsigned(n))
  }

  /** The queue of the k-th retry. */
  function Retry(ranges: seq<Range>, base: nat, k: nat): Option<int> { QueueByLoopRank(ranges, base + k) }

  lemma LoopOffset(base: nat, n: nat, t: nat) returns (k: nat)
    requires n > 0 && t < n
    ensures k < n && (base + k) % n == t
  {
    var d, x := base / n, base % n;
    assert base == n * d + x;
    if t >= x {
      k := t - x;
      DivModUnique(base + k, n, d, t);
    } else {
      k := t + n - x;
      assert n * (d + 1) == n * d + n;
      DivModUnique(base + k, n, d + 1, t);
    }
  }

  lemma LoopOffsetIsUnique(base: nat, n: nat, k: nat, l: nat)
    requires n > 0 && k <= l < k + n && (base + k) % n == (base + l) % n
    ensures k == l
  {
    if k < l { NextResidue(base + k, base + l, n); }
  }

  /** As many successive switching retries as there are queues visit every queue exactly once. */
  lemma RetriesVisitEveryQueue(ranges: seq<Range>, base: nat, q: int)
    requires Proper(ranges) && Has(ranges, q)
    ensures exists k: nat :: k < NQueue(ranges) && Retry(ranges, base, k) == Some(q)
    ensures forall k: nat, l: nat :: k < l < NQueue(ranges) && Retry(ranges, base, k) == Some(q) ==>
      Retry(ranges, base, l) != Some(q)
  {
    var n := NQueue(ranges);
    var t := RankOf(ranges, q);
    var k := LoopOffset(base, n, t);
    assert Retry(ranges, base, k) == Some(q);
    forall k: nat, l: nat | k < l < n && Retry(ranges, base, k) == Some(q) ensures Retry(ranges, base, l) != Some(q) {
      var a, b := (base + k) % n, (base + l) % n;
      if a == b {
        LoopOffsetIsUnique(base, n, k, l);
      } else if a < b {
        RankIsIncreasing(ranges, a, b);
      } else {
        RankIsIncreasing(ranges, b, a);
      }
    }
  }

  class QueueSelector {
    const retrySwitchQueue: bool
    var retry: nat

    constructor (retrySwitchQueue: bool)
      ensures retry == 0 && this.retrySwitchQueue == retrySwitchQueue
    {
      this.retrySwitchQueue := retrySwitchQueue;
      retry := 0;
    }

    /** `crc` is the hash of uin and topic: the same every time for a nonzero uin that is not random. */
    method GetQueueID(ranges: seq<Range>, crc: nat) returns (queue: Option<int>)
      requires -TWO_64 < NQueue(ranges)
      modifies this`retry
      ensures queue == Retry(ranges, crc, if retrySwitchQueue then old(retry) else 0)
      ensures retry == old(retry) + 1
      ensures NQueue(ranges) == 0 ==> queue == None
      ensures NQueue(ranges) > 0 ==>
        queue == QueueByRank(ranges, (crc + if retrySwitchQueue then old(retry) else 0) % NQueue(ranges))
    {
      var rd := crc;
      if retrySwitchQueue { rd := rd + retry; }
      var nqueue := GetNQueue(ranges);
      if nqueue == 0 { queue := None; } else { queue := GetQueueByRank(ranges, rd % Unsigned(nqueue)); }
      retry := retry + 1;
    }
  }

  // ---------------------------------------------------------------- the ladder of queue infos

  /** How often items are retried in one queue info; -1 means for ever. An id may have no queue info. */
  datatype QueueInfo = NoInfo | Info(count: int)

  datatype Level = AtInfo(i: nat) | ErrRangeQueueInfo | ErrRangeCount

  /** Where an item of count `c` goes; `i` counts the queue infos passed. */
  function LevelFrom(infos: seq<QueueInfo>, i: nat, c: int): Level
    decreases |infos| - i
  {
    if i >= |infos| then ErrRangeCount
    else if infos[i].NoInfo? then ErrRangeQueueInfo
    else if infos[i].count != -1 && c >= infos[i].count then LevelFrom(infos, i + 1, c - infos[i].count)
    else AtInfo(i)
  }

  method GetQueueInfoIDByCount(infos: seq<QueueInfo>, count: int) returns (level: Level)
    ensures level == LevelFrom(infos, 0, count)
  {
    var c := count;
    var i := 0;
    while i < |infos|
      invariant 0 <= i <= |infos| && LevelFrom(infos, i, c) == LevelFrom(infos, 0, count)
    {
      if infos[i].NoInfo? { return ErrRangeQueueInfo; }
      if infos[i].count != -1 && c >= infos[i].count { c := c - infos[i].count; } else { return AtInfo(i); }
      i := i + 1;
    }
    return ErrRangeCount;
  }

  ghost predicate Counted(infos: seq<QueueInfo>) {
    forall i :: 0 <= i < |infos| && infos[i].Info? ==> infos[i].count >= -1
  }

  /** Retries used up before queue info `i`. */
  function Before(infos: seq<QueueInfo>, i: nat): int
    requires i <= |infos|
  {
    if i == 0 then 0 else Before(infos, i - 1) + (if infos[i - 1].Info? then infos[i - 1].count else 0)
  }

  ghost predicate Bounded(infos: seq<QueueInfo>, i: nat) {
    i <= |infos| && forall k :: 0 <= k < i ==> infos[k].Info? && infos[k].count != -1
  }

  lemma {:induction false} LevelSkips(infos: seq<QueueInfo>, i: nat, count: nat)
    requires Counted(infos) && Bounded(infos, i) && Before(infos, i) <= count
    ensures LevelFrom(infos, 0, count) == LevelFrom(infos, i, count - Before(infos, i))
    ensures i > 0 ==> Before(infos, i - 1) <= count
    decreases i
  {
    if i > 0 { LevelSkips(infos, i - 1, count); }
  }

  lemma {:induction false} BeforeGrows(infos: seq<QueueInfo>, i: nat, j: nat)
    requires Counted(infos) && Bounded(infos, j) && i <= j
    ensures Before(infos, i) <= Before(infos, j)
    decreases j
  {
    if i < j { BeforeGrows(infos, i, j - 1); }
  }

  /** An item whose count rises by one with every failure passes the queue infos in order, is in each of
      them for exactly that one's count, and in one without a bound for ever. */
  lemma {:induction false} ItemClimbsLadder(infos: seq<QueueInfo>, i: nat, count: nat)
    requires Counted(infos) && i < |infos|
    ensures LevelFrom(infos, 0, count) == AtInfo(i) <==>
      Bounded(infos, i) && Before(infos, i) <= count &&
      infos[i].Info? && (infos[i].count == -1 || count < Before(infos, i + 1))
  {
    if Bounded(infos, i) && Before(infos, i) <= count {
      LevelSkips(infos, i, count);
      if infos[i].Info? { LevelIsLater(infos, i + 1, count - Before(infos, i + 1)); }
    } else {
      var j := FirstStop(infos, i, count);
      LevelSkips(infos, j, count);
    }
  }

  lemma {:induction false} LevelIsLater(infos: seq<QueueInfo>, i: nat, c: int)
    requires i <= |infos|
    ensures LevelFrom(infos, i, c).AtInfo? ==> i <= LevelFrom(infos, i, c).i < |infos|
    decreases |infos| - i
  {
    if i < |infos| && infos[i].Info? { LevelIsLater(infos, i + 1, c - infos[i].count); }
  }

  /** When the walk does not get as far as `i`, it stops at some earlier queue info. */
  lemma {:induction false} FirstStop(infos: seq<QueueInfo>, i: nat, count: nat) returns (j: nat)
    requires Counted(infos) && i < |infos| && !(Bounded(infos, i) && Before(infos, i) <= count)
    ensures j < i && Bounded(infos, j) && Before(infos, j) <= count
    ensures infos[j].Info? ==> infos[j].count == -1 || count < Before(infos, j + 1)
    decreases i
  {
    if Bounded(infos, i - 1) && Before(infos, i - 1) <= count {
      j := i - 1;
    } else {
      j := FirstStop(infos, i - 1, count);
    }
  }

  /** A queue info that is missing is an error exactly for the items that get as far. */
  lemma MissingInfoIsError(infos: seq<QueueInfo>, i: nat, count: nat)
    requires Counted(infos) && i < |infos| && infos[i].NoInfo? && forall j :: 0 <= j < i ==> infos[j].Info?
    ensures LevelFrom(infos, 0, count) == ErrRangeQueueInfo <==> Bounded(infos, i) && Before(infos, i) <= count
  {
    if Bounded(infos, i) && Before(infos, i) <= count {
      LevelSkips(infos, i, count);
    } else {
      var j := FirstStop(infos, i, count);
      ItemClimbsLadder(infos, j, count);
    }
  }

  /** It is dropped exactly when all queue infos are bounded and their counts are used up. */
  lemma ItemDroppedAfterAll(infos: seq<QueueInfo>, count: nat)
    requires Counted(infos)
    ensures LevelFrom(infos, 0, count) == ErrRangeCount <==> Bounded(infos, |infos|) && Before(infos, |infos|) <= count
  {
    if Bounded(infos, |infos|) && Before(infos, |infos|) <= count {
      LevelSkips(infos, |infos|, count);
    } else if infos != [] {
      var n := |infos| - 1;
      if Bounded(infos, n) && Before(infos, n) <= count {
        LevelSkips(infos, n, count);
      } else {
        var j := FirstStop(infos, n, count);
        LevelSkips(infos, j, count);
      }
    }
  }
}
