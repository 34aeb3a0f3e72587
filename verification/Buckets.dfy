/** Handling fetched items in parallel without reordering the items of one uin
    (phxqueue/consumer/consumer.cpp:200-235, 295-315, 415-423). */
module HandleBuckets {
  import opened Options

  // ---------------------------------------------------------------- which item goes where

  /** The items that `at` sends to bucket `b`, in fetch order. */
  function Indexes(at: seq<nat>, b: nat): seq<nat> {
    if at == [] then []
    else Indexes(at[..|at| - 1], b) + (if at[|at| - 1] == b then [|at| - 1] else [])
  }

  lemma {:induction false} IndexesHold(at: seq<nat>, b: nat)
    ensures forall i: nat :: i in Indexes(at, b) <==> i < |at| && at[i] == b
    decreases |at|
  {
    if at != [] {
      var front, last := at[..|at| - 1], |at| - 1;
      IndexesHold(front, b);
      var items := Indexes(front, b);
      assert Indexes(at, b) == items + (if at[last] == b then [last] else []);
      hide Indexes;
      forall i: nat ensures i in Indexes(at, b) <==> i < |at| && at[i] == b {
        assert i in items <==> i < |front| && front[i] == b;
      }
    }
  }

  lemma {:induction false} IndexesAscend(at: seq<nat>, b: nat)
    ensures forall j, k :: 0 <= j < k < |Indexes(at, b)| ==> Indexes(at, b)[j] < Indexes(at, b)[k]
    decreases |at|
  {
    if at != [] {
      var front := at[..|at| - 1];
      IndexesAscend(front, b);
      IndexesHold(front, b);
      var items := Indexes(front, b);
      assert forall k :: 0 <= k < |items| ==> items[k] in items;
    }
  }

  function Total(buckets: seq<seq<nat>>): nat {
    if buckets == [] then 0 else |buckets[0]| + Total(buckets[1..])
  }

  function Spread(at: seq<nat>, n: nat): (r: seq<seq<nat>>)
    ensures |r| == n && forall b :: 0 <= b < n ==> r[b] == Indexes(at, b)
  {
    seq(n, b requires 0 <= b < n => Indexes(at, b))
  }

  lemma SpreadOneMore(at: seq<nat>, n: nat, b: nat)
    requires b < n
    ensures Spread(at + [b], n) == Spread(at, n)[b := Indexes(at, b) + [|at|]]
  {
    var next := at + [b];
    assert next[..|next| - 1] == at;
    forall c | 0 <= c < n ensures Spread(next, n)[c] == Spread(at, n)[b := Indexes(at, b) + [|at|]][c] {
      assert Indexes(next, c) == Indexes(at, c) + (if b == c then [|at|] else []);
    }
  }

  lemma {:induction false} TotalUpdates(buckets: seq<seq<nat>>, b: nat, x: seq<nat>)
    requires b < |buckets|
    ensures Total(buckets[b := x]) == Total(buckets) - |buckets[b]| + |x|
    decreases |buckets|
  {
    if b == 0 {
      assert buckets[b := x][1..] == buckets[1..];
    } else {
      assert buckets[b := x][1..] == buckets[1..][b - 1 := x];
      TotalUpdates(buckets[1..], b - 1, x);
    }
  }

  /** Every item is in exactly one bucket, so the bucket sizes add up to the number of items. */
  lemma {:induction false} SpreadLosesNothing(at: seq<nat>, n: nat)
    requires forall i :: 0 <= i < |at| ==> at[i] < n
    ensures Total(Spread(at, n)) == |at|
    decreases |at|
  {
    if at == [] {
      AllEmpty(Spread(at, n));
    } else {
      var front, b := at[..|at| - 1], at[|at| - 1];
      SpreadLosesNothing(front, n);
      SpreadOneMore(front, n, b);
      assert front + [b] == at;
      TotalUpdates(Spread(front, n), b, Spread(front, n)[b] + [|at| - 1]);
    }
  }

  lemma {:induction false} AllEmpty(buckets: seq<seq<nat>>)
    requires forall b :: 0 <= b < |buckets| ==> buckets[b] == []
    ensures Total(buckets) == 0
    decreases |buckets|
  {
    if buckets != [] { AllEmpty(buckets[1..]); }
  }

  // ---------------------------------------------------------------- filling the buckets

  /** Items of one nonzero uin share a bucket. */
  ghost predicate Grouped(uins: seq<nat>, at: seq<nat>)
    requires |at| == |uins|
  {
    forall i, j :: 0 <= i < j < |uins| && uins[i] == uins[j] != 0 ==> at[i] == at[j]
  }

  /** A bucket is used again only for a uin that has one already, or when all are in use. */
  ghost predicate SharedRightly(uins: seq<nat>, byRandomUin: bool, n: nat, at: seq<nat>) {
    |at| <= |uins| && forall j :: 0 <= j < |at| && at[j] in at[..j] ==> MayShare(uins, byRandomUin, n, at, j)
  }

  ghost predicate MayShare(uins: seq<nat>, byRandomUin: bool, n: nat, at: seq<nat>, j: nat)
    requires j <= |at| && j < |uins|
  {
    (!byRandomUin && uins[j] != 0 && uins[j] in uins[..j]) || (forall b: nat :: b < n ==> b in at[..j])
  }

  /** The buckets below `used` are in use, and no others. */
  ghost predicate UsedInv(at: seq<nat>, used: nat) {
    (forall k :: 0 <= k < |at| ==> at[k] < used) && (forall b: nat :: b < used ==> b in at)
  }

  /** The map knows the bucket of every uin placed so far. */
  ghost predicate KeyInv(uins: seq<nat>, byRandomUin: bool, at: seq<nat>, m: map<nat, nat>) {
    && |at| <= |uins|
    && (forall u :: u in m ==> !byRandomUin && u != 0 && u in uins[..|at|] && m[u] in at)
    && (!byRandomUin ==> forall k :: 0 <= k < |at| && uins[k] != 0 ==> uins[k] in m && at[k] == m[uins[k]])
  }

  lemma NothingPlaced(uins: seq<nat>, byRandomUin: bool, n: nat)
    ensures UsedInv([], 0) && KeyInv(uins, byRandomUin, [], map[]) && SharedRightly(uins, byRandomUin, n, [])
  {
  }

  lemma UsedStep(at: seq<nat>, used: nat, bucket: nat)
    requires UsedInv(at, used) && bucket <= used
    ensures UsedInv(at + [bucket], if bucket == used then used + 1 else used)
  {
  }

  lemma KeyStep(uins: seq<nat>, byRandomUin: bool, at: seq<nat>, m: map<nat, nat>, used: nat, bucket: nat)
    requires |at| < |uins| && KeyInv(uins, byRandomUin, at, m) && UsedInv(at, used)
    ensures var keyed := uins[|at|] != 0 && !byRandomUin;
      && (keyed && uins[|at|] in m ==> m[uins[|at|]] < used)
      && (keyed && uins[|at|] in m && bucket == m[uins[|at|]] ==> KeyInv(uins, byRandomUin, at + [bucket], m))
      && (keyed && uins[|at|] !in m ==> KeyInv(uins, byRandomUin, at + [bucket], m[uins[|at|] := bucket]))
      && (!keyed ==> KeyInv(uins, byRandomUin, at + [bucket], m))
  {
  }

  lemma Reused(uins: seq<nat>, byRandomUin: bool, n: nat, at: seq<nat>, m: map<nat, nat>, used: nat, bucket: nat)
    requires |at| < |uins| && KeyInv(uins, byRandomUin, at, m) && UsedInv(at, used) && bucket in at
    requires (uins[|at|] != 0 && !byRandomUin && uins[|at|] in m) || used >= n || bucket == used
    ensures MayShare(uins, byRandomUin, n, at, |at|)
  {
    assert at[..|at|] == at;
  }

  lemma AllPlaced(uins: seq<nat>, byRandomUin: bool, at: seq<nat>, m: map<nat, nat>, used: nat)
    requires KeyInv(uins, byRandomUin, at, m) && UsedInv(at, used) && |at| == |uins|
    ensures !byRandomUin ==> Grouped(uins, at)
    ensures forall i :: 0 <= i < |at| ==> at[i] < used
  {
  }

  lemma ShareOneMore(uins: seq<nat>, byRandomUin: bool, n: nat, at: seq<nat>, bucket: nat)
    requires |at| < |uins| && SharedRightly(uins, byRandomUin, n, at)
    requires bucket in at ==> MayShare(uins, byRandomUin, n, at, |at|)
    ensures SharedRightly(uins, byRandomUin, n, at + [bucket])
  {
    var next := at + [bucket];
    forall j | 0 <= j < |next| && next[j] in next[..j] ensures MayShare(uins, byRandomUin, n, next, j) {
      assert next[..j] == at[..j];
      if j == |at| { assert at[..j] == at; }
    }
  }

  class Consumer {
    const nhandler: nat
    var handleBuckets: seq<seq<nat>>

    constructor (nhandler: nat)
      ensures this.nhandler == nhandler && handleBuckets == Spread([], nhandler)
    {
      this.nhandler := nhandler;
      handleBuckets := seq(nhandler, b => []);
    }

    /** `rand(i)` is what FastRand gives for item `i`. Items of one nonzero uin share a bucket unless uins
        are handled at random; otherwise a bucket is used again only when all buckets are in use. */
    method MakeHandleBuckets(uins: seq<nat>, byRandomUin: bool, rand: nat -> nat) returns (ghost at: seq<nat>)
      requires nhandler >= 1 && handleBuckets == Spread([], nhandler)
      modifies this`handleBuckets
      ensures |at| == |uins| && handleBuckets == Spread(at, nhandler)
      ensures forall i :: 0 <= i < |at| ==> at[i] < nhandler
      ensures !byRandomUin ==> Grouped(uins, at)
      ensures SharedRightly(uins, byRandomUin, nhandler, at)
    {
      at := [];
      var used := 0;
      var uin2bucket: map<nat, nat> := map[];
      var i := 0;
      hide SharedRightly, MayShare, Grouped, Spread, Indexes, UsedInv, KeyInv;
      NothingPlaced(uins, byRandomUin, nhandler);
      while i < |uins|
        invariant 0 <= i <= |uins| && |at| == i && used <= nhandler
        invariant handleBuckets == Spread(at, nhandler)
        invariant UsedInv(at, used) && KeyInv(uins, byRandomUin, at, uin2bucket)
        invariant SharedRightly(uins, byRandomUin, nhandler, at)
      {
        var key := uins[i];
        var keyed := key != 0 && !byRandomUin;
        var bucket;
        ghost var usedBefore, mapBefore := used, uin2bucket;
        if keyed && key in uin2bucket {
          bucket := uin2bucket[key];
        } else {
          if used >= nhandler {
            bucket := rand(i) % nhandler;
          } else {
            bucket := used;
            used := used + 1;
          }
          if keyed { uin2bucket := uin2bucket[key := bucket]; }
        }
        KeyStep(uins, byRandomUin, at, mapBefore, usedBefore, bucket);
        UsedStep(at, usedBefore, bucket);
        if bucket in at { Reused(uins, byRandomUin, nhandler, at, mapBefore, usedBefore, bucket); }
        ShareOneMore(uins, byRandomUin, nhandler, at, bucket);
        SpreadOneMore(at, nhandler, bucket);
        handleBuckets := handleBuckets[bucket := handleBuckets[bucket] + [i]];
        at := at + [bucket];
        i := i + 1;
      }
      AllPlaced(uins, byRandomUin, at, uin2bucket, used);
    }

    /** What one bucket routine does when nothing else runs: handle its items front to back. */
    method ProcessAllHandleTasks(cid: nat) returns (handled: seq<nat>)
      requires cid < |handleBuckets|
      modifies this`handleBuckets
      ensures handled == old(handleBuckets)[cid] && handleBuckets == old(handleBuckets)[cid := []]
    {
      handled := [];
      while handleBuckets[cid] != []
        invariant cid < |handleBuckets| == |old(handleBuckets)|
        invariant handled + handleBuckets[cid] == old(handleBuckets)[cid]
        invariant forall b :: 0 <= b < |handleBuckets| && b != cid ==> handleBuckets[b] == old(handleBuckets)[b]
        decreases |handleBuckets[cid]|
      {
        var idx := handleBuckets[cid][0];
        handleBuckets := handleBuckets[cid := handleBuckets[cid][1..]];
        handled := handled + [idx];
      }
    }
  }

  // ---------------------------------------------------------------- the bucket routines

  /** One routine per bucket; a routine may be suspended while it handles an item. `done[b]` lists what
      bucket b has handled; `finished` is nhandle_task_finished. */
  datatype Handling = Handling(queue: seq<seq<nat>>, running: seq<Option<nat>>, done: seq<seq<nat>>, finished: nat)

  datatype Step = Start(b: nat) | Finish(b: nat)

  predicate Enabled(h: Handling, step: Step) {
    match step
    case Start(b) => b < |h.queue| && b < |h.running| && h.running[b].None? && h.queue[b] != []
    case Finish(b) => b < |h.running| && b < |h.done| && h.running[b].Some?
  }

  function Do(h: Handling, step: Step): Handling
    requires Enabled(h, step)
  {
    match step
    case Start(b) => h.(queue := h.queue[b := h.queue[b][1..]], running := h.running[b := Some(h.queue[b][0])])
    case Finish(b) =>
      h.(running := h.running[b := None],
        done := h.done[b := h.done[b] + [h.running[b].value]], finished := h.finished + 1)
  }

  function Fresh(buckets: seq<seq<nat>>): Handling {
    Handling(buckets, seq(|buckets|, b => None), seq(|buckets|, b => []), 0)
  }

  ghost predicate Runs(h: Handling, steps: seq<Step>)
    decreases |steps|
  {
    steps != [] ==> Enabled(h, steps[0]) && Runs(Do(h, steps[0]), steps[1..])
  }

  ghost function Final(h: Handling, steps: seq<Step>): Handling
    requires Runs(h, steps)
    decreases |steps|
  {
    if steps == [] then h else Final(Do(h, steps[0]), steps[1..])
  }

  function OneOrNone(x: Option<nat>): seq<nat> { if x.Some? then [x.value] else [] }

  /** A bucket's items are at any time what is done, what is being handled, and what is left, in order. */
  ghost predicate Inv(h: Handling, buckets: seq<seq<nat>>) {
    && |h.queue| == |h.running| == |h.done| == |buckets|
    && (forall b :: 0 <= b < |buckets| ==> h.done[b] + OneOrNone(h.running[b]) + h.queue[b] == buckets[b])
    && h.finished == Total(h.done)
  }

  lemma StepKeepsInv(h: Handling, buckets: seq<seq<nat>>, step: Step)
    requires Inv(h, buckets) && Enabled(h, step)
    ensures Inv(Do(h, step), buckets)
  {
    match step
    case Start(b) =>
      assert [h.queue[b][0]] + h.queue[b][1..] == h.queue[b];
      assert h.done[b] + [] + h.queue[b] == h.done[b] + [h.queue[b][0]] + h.queue[b][1..];
    case Finish(b) =>
      TotalUpdates(h.done, b, h.done[b] + [h.running[b].value]);
  }

  lemma {:induction false} RunKeepsInv(h: Handling, buckets: seq<seq<nat>>, steps: seq<Step>)
    requires Inv(h, buckets) && Runs(h, steps)
    ensures Inv(Final(h, steps), buckets)
    decreases |steps|
  {
    if steps != [] {
      hide Inv, Do;
      StepKeepsInv(h, buckets, steps[0]);
      RunKeepsInv(Do(h, steps[0]), buckets, steps[1..]);
    }
  }

  lemma FreshHoldsInv(buckets: seq<seq<nat>>)
    ensures Inv(Fresh(buckets), buckets)
  {
    AllEmpty(Fresh(buckets).done);
  }

  ghost predicate Handled(h: Handling, i: nat) {
    exists b, k :: 0 <= b < |h.done| && 0 <= k < |h.done[b]| && h.done[b][k] == i
  }

  ghost predicate Begun(h: Handling, i: nat) {
    Handled(h, i) || exists b :: 0 <= b < |h.running| && h.running[b] == Some(i)
  }

  /** Whatever the interleaving: when handling of an item has begun, all earlier items of its bucket have
      been handled completely. */
  lemma InOrder(at: seq<nat>, n: nat, steps: seq<Step>, i: nat, j: nat)
    requires Runs(Fresh(Spread(at, n)), steps) && i < j < |at| && at[i] == at[j] < n
    ensures Begun(Final(Fresh(Spread(at, n)), steps), j) ==> Handled(Final(Fresh(Spread(at, n)), steps), i)
  {
    var buckets := Spread(at, n);
    FreshHoldsInv(buckets);
    RunKeepsInv(Fresh(buckets), buckets, steps);
    var h := Final(Fresh(buckets), steps);
    hide Final, Runs, Indexes;
    if Begun(h, j) {
      var b, k := BegunAt(h, buckets, j);
      var l := EarlierInBucket(at, b, i, j, k);
      assert Inv(h, buckets);
      assert (h.done[b] + OneOrNone(h.running[b]) + h.queue[b])[l] == i;
      assert h.done[b][l] == i;
    }
  }

  /** With buckets filled as MakeHandleBuckets does, the items of one uin are handled in the order in which
      they were fetched, whatever the interleaving. */
  lemma SameUinInOrder(uins: seq<nat>, at: seq<nat>, n: nat, steps: seq<Step>, i: nat, j: nat)
    requires |at| == |uins| && Grouped(uins, at) && forall k :: 0 <= k < |at| ==> at[k] < n
    requires Runs(Fresh(Spread(at, n)), steps) && i < j < |uins| && uins[i] == uins[j] != 0
    ensures Begun(Final(Fresh(Spread(at, n)), steps), j) ==> Handled(Final(Fresh(Spread(at, n)), steps), i)
  {
    hide Runs, Final, Spread, Begun, Handled;
    InOrder(at, n, steps, i, j);
  }

  lemma EarlierInBucket(at: seq<nat>, b: nat, i: nat, j: nat, k: nat) returns (l: nat)
    requires i < j < |at| && at[i] == at[j] && k < |Indexes(at, b)| && Indexes(at, b)[k] == j
    ensures l < k && Indexes(at, b)[l] == i
  {
    IndexesHold(at, b);
    IndexesAscend(at, b);
    var items := Indexes(at, b);
    assert items[k] in items;
    assert i in items;
    l :| 0 <= l < |items| && items[l] == i;
  }

  /** A begun item stands in its bucket right behind at most what is done. */
  lemma BegunAt(h: Handling, buckets: seq<seq<nat>>, j: nat) returns (b: nat, k: nat)
    requires Inv(h, buckets) && Begun(h, j)
    ensures b < |buckets| && k < |buckets[b]| && buckets[b][k] == j && k <= |h.done[b]|
  {
    if Handled(h, j) {
      b, k :| 0 <= b < |h.done| && 0 <= k < |h.done[b]| && h.done[b][k] == j;
      assert (h.done[b] + OneOrNone(h.running[b]) + h.queue[b])[k] == j;
    } else {
      b :| 0 <= b < |h.running| && h.running[b] == Some(j);
      k := |h.done[b]|;
      assert (h.done[b] + OneOrNone(h.running[b]) + h.queue[b])[k] == j;
    }
  }

  /** No item is handled twice. */
  lemma HandledOnce(at: seq<nat>, n: nat, steps: seq<Step>, b: nat, k: nat, c: nat, l: nat)
    requires Runs(Fresh(Spread(at, n)), steps)
    ensures var h := Final(Fresh(Spread(at, n)), steps);
      && |h.done| == n
      && (b < n && k < |h.done[b]| && c < n && l < |h.done[c]| && h.done[b][k] == h.done[c][l] ==> b == c && k == l)
  {
    var buckets := Spread(at, n);
    FreshHoldsInv(buckets);
    RunKeepsInv(Fresh(buckets), buckets, steps);
    var h := Final(Fresh(buckets), steps);
    hide Final, Runs, Indexes;
    if b < n && k < |h.done[b]| && c < n && l < |h.done[c]| && h.done[b][k] == h.done[c][l] {
      DoneIsInBucket(h, buckets, b, k);
      DoneIsInBucket(h, buckets, c, l);
      hide Inv;
      OnePlace(at, b, k, c, l);
    }
  }

  lemma DoneIsInBucket(h: Handling, buckets: seq<seq<nat>>, b: nat, k: nat)
    requires Inv(h, buckets) && b < |buckets| && k < |h.done[b]|
    ensures k < |buckets[b]| && buckets[b][k] == h.done[b][k]
  {
  }

  lemma OnePlace(at: seq<nat>, b: nat, k: nat, c: nat, l: nat)
    requires k < |Indexes(at, b)| && l < |Indexes(at, c)| && Indexes(at, b)[k] == Indexes(at, c)[l]
    ensures b == c && k == l
  {
    IndexesHold(at, b);
    IndexesHold(at, c);
    IndexesAscend(at, b);
    hide Indexes;
    assert Indexes(at, b)[k] in Indexes(at, b) && Indexes(at, c)[l] in Indexes(at, c);
  }

  ghost predicate Drained(h: Handling) {
    && (forall b :: 0 <= b < |h.queue| ==> h.queue[b] == [])
    && (forall b :: 0 <= b < |h.running| ==> h.running[b] == None)
  }

  lemma {:induction false} SmallerTotal(a: seq<seq<nat>>, b: seq<seq<nat>>)
    requires |a| == |b| && forall k :: 0 <= k < |a| ==> |a[k]| <= |b[k]|
    ensures Total(a) <= Total(b)
    ensures Total(a) == Total(b) ==> forall k :: 0 <= k < |a| ==> |a[k]| == |b[k]|
    ensures (forall k :: 0 <= k < |a| ==> |a[k]| == |b[k]|) ==> Total(a) == Total(b)
    decreases |a|
  {
    if a != [] {
      SmallerTotal(a[1..], b[1..]);
      if Total(a) == Total(b) {
        forall k | 0 <= k < |a|
          ensures |a[k]| == |b[k]|
        {
          assert k > 0 ==> a[k] == a[1..][k - 1] && b[k] == b[1..][k - 1];
        }
      }
    }
  }

  /** The counter reaches the number of items exactly when every bucket is drained and idle. */
  lemma FinishedMeansDrained(at: seq<nat>, n: nat, steps: seq<Step>)
    requires (forall i :: 0 <= i < |at| ==> at[i] < n) && Runs(Fresh(Spread(at, n)), steps)
    ensures var h := Final(Fresh(Spread(at, n)), steps); h.finished <= |at| && (h.finished == |at| <==> Drained(h))
  {
    var buckets := Spread(at, n);
    FreshHoldsInv(buckets);
    RunKeepsInv(Fresh(buckets), buckets, steps);
    var h := Final(Fresh(buckets), steps);
    hide Final, Runs, Indexes;
    SpreadLosesNothing(at, n);
    forall b | 0 <= b < |buckets| ensures |h.done[b]| + |OneOrNone(h.running[b])| + |h.queue[b]| == |buckets[b]| {
      assert |h.done[b] + OneOrNone(h.running[b]) + h.queue[b]| == |buckets[b]|;
    }
    SmallerTotal(h.done, buckets);
  }
}
