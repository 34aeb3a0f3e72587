/** Group commit in the producer: requests for one queue that arrive together are added as one
    (phxqueue/producer/batchhelper.cpp:121-177, 260-294, 344-415). Callers and the dispatching thread
    interleave; each enters a batch slot under that slot's mutex. */
module GroupCommit {
  import opened Options

  datatype Key = Key(topic: int, store: int, queue: int)

  /** `id` names the call; `size` is the request's ByteSize. */
  datatype Request = Request(id: int, key: Key, items: seq<int>, size: nat)

  datatype Limits = Limits(bytes: nat, batch: nat, delayMs: nat)

  /** The tasks of a batch that is still open; the counters are 32 bits wide, a start of 0 is unset. */
  datatype Open = Open(tasks: seq<Request>, nbyte: nat, nitems: nat, start: nat)

  const EMPTY := Open([], 0, 0, 0)

  function U32(x: nat): nat { x % 0x1_0000_0000 }

  function AddTask(o: Open, r: Request, nowMs: nat): Open {
    Open(o.tasks + [r], U32(o.nbyte + r.size), U32(o.nitems + |r.items|), if o.start == 0 then nowMs else o.start)
  }

  predicate Ready(o: Open, l: Limits, nowMs: nat) {
    && o.nitems != 0 && o.start != 0
    && (U32(o.nbyte * 2) >= l.bytes || U32(o.nitems * 2) >= l.batch || o.start + l.delayMs <= nowMs)
  }

  /** When a batch that is not ready will be; 0 when it is, or when nothing says so. */
  function ReadyAt(o: Open, l: Limits, nowMs: nat): nat {
    if o.nitems == 0 || o.start == 0 || Ready(o, l, nowMs) then 0 else o.start + l.delayMs
  }

  /** `next` is the earliest of those times among the batches of `keys`, 0 when there is none. */
  ghost predicate Earliest(next: nat, open: map<Key, Open>, keys: seq<Key>, l: Limits, nowMs: nat) {
    && (forall k :: k in keys && k in open && ReadyAt(open[k], l, nowMs) != 0 ==>
      0 < next <= ReadyAt(open[k], l, nowMs))
    && (next != 0 ==> exists k :: k in keys && k in open && ReadyAt(open[k], l, nowMs) == next)
  }

  function AllItems(tasks: seq<Request>): seq<int> {
    if tasks == [] then [] else AllItems(tasks[..|tasks| - 1]) + tasks[|tasks| - 1].items
  }

  /** A batch that somebody took to add it. `leader` is the call that took it, None the dispatcher; `ret`
      is the return code once the add has finished. */
  datatype Batch = Batch(key: Key, tasks: seq<Request>, leader: Option<int>, ret: Option<int>)

  class BatchTask {
    var tasks: seq<Request>
    var nbyte: nat
    var nitems: nat
    var start: nat
    const limits: Limits

    ghost function State(): Open reads this { Open(tasks, nbyte, nitems, start) }

    constructor (limits: Limits)
      ensures State() == EMPTY && this.limits == limits
    {
      tasks, nbyte, nitems, start := [], 0, 0, 0;
      this.limits := limits;
    }

    method Add(r: Request, nowMs: nat)
      modifies this
      ensures State() == AddTask(old(State()), r, nowMs)
      ensures tasks == old(tasks) + [r] && start == (if old(start) == 0 then nowMs else old(start))
      ensures nbyte == (old(nbyte) + r.size) % 0x1_0000_0000 && nitems == (old(nitems) + |r.items|) % 0x1_0000_0000
    {
      if start == 0 { start := nowMs; }
      nbyte := U32(nbyte + r.size);
      nitems := U32(nitems + |r.items|);
      tasks := tasks + [r];
    }

    method IsReady(nowMs: nat) returns (ready: bool, readyAt: nat)
      ensures ready == Ready(State(), limits, nowMs) && readyAt == ReadyAt(State(), limits, nowMs)
      ensures ready <==>
        && nitems != 0 && start != 0
        && (|| nbyte * 2 % 0x1_0000_0000 >= limits.bytes || nitems * 2 % 0x1_0000_0000 >= limits.batch
            || start + limits.delayMs <= nowMs)
      ensures readyAt == if nitems == 0 || start == 0 || ready then 0 else start + limits.delayMs
      ensures readyAt != 0 ==> nowMs < readyAt
    {
      if nitems == 0 || start == 0 { return false, 0; }
      if U32(nbyte * 2) >= limits.bytes || U32(nitems * 2) >= limits.batch || start + limits.delayMs <= nowMs {
        return true, 0;
      }
      return false, start + limits.delayMs;
    }

    /** The request that is added for the whole batch: copying the first request that has items and
        appending the rest gives all items in arrival order. */
    method BatchRequest() returns (items: seq<int>)
      ensures items == AllItems(tasks)
    {
      items := [];
      var i := 0;
      while i < |tasks|
        invariant 0 <= i <= |tasks| && items == AllItems(tasks[..i])
      {
        assert tasks[..i + 1][..i] == tasks[..i];
        if |items| == 0 {
          items := tasks[i].items;
        } else {
          var j := 0;
          ghost var before := items;
          while j < |tasks[i].items|
            invariant 0 <= j <= |tasks[i].items| && items == before + tasks[i].items[..j] && |items| > 0
          {
            items := items + [tasks[i].items[j]];
            j := j + 1;
          }
          assert tasks[i].items[..j] == tasks[i].items;
        }
        i := i + 1;
      }
      assert tasks[..i] == tasks;
    }
  }

  /** The slots of one daemon thread. A batch is moved out of its slot, so it is a value here; `next` is the
      time before which a pass of the dispatcher returns at once. */
  class BatchHelper {
    const limits: Limits
    var open: map<Key, Open>
    var next: nat

    constructor (limits: Limits)
      ensures open == map[] && next == 0 && this.limits == limits
    {
      this.limits := limits;
      open, next := map[], 0;
    }

    /** What a call does under the mutex of its slot: it joins the open batch, and takes that batch away
        when it is ready; otherwise it waits. */
    method BatchRawAdd(r: Request, nowMs: nat) returns (taken: Option<Open>)
      modifies this`open
      ensures var o := AddTask(if r.key in old(open) then old(open)[r.key] else EMPTY, r, nowMs);
        if Ready(o, limits, nowMs) then taken == Some(o) && open == old(open) - {r.key}
        else taken == None && open == old(open)[r.key := o]
    {
      var o := if r.key in open then open[r.key] else EMPTY;
      o := AddTask(o, r, nowMs);
      if Ready(o, limits, nowMs) {
        open := open - {r.key};
        return Some(o);
      }
      open := open[r.key := o];
      return None;
    }

    /** One pass of the dispatcher, unless it is too early for one: every ready batch goes to an idle
        routine while there is one. */
    method DispatchBatchTask(keys: seq<Key>, nowMs: nat, idle: nat) returns (taken: seq<Key>)
      modifies this`open, this`next
      ensures |taken| <= idle && Without(old(open), open, taken)
      ensures forall k :: k in taken ==> k in old(open) && Ready(old(open)[k], limits, nowMs)
      ensures nowMs < old(next) ==> taken == [] && next == old(next)
      ensures old(next) <= nowMs && |taken| < idle ==>
        forall k :: k in keys && k in open ==> !Ready(open[k], limits, nowMs)
      ensures old(next) <= nowMs ==> Earliest(next, old(open), keys, limits, nowMs)
    {
      if next != 0 && next > nowMs { return []; }
      next := 0;
      taken := DispatchAll(keys, nowMs, idle);
      PassEnds(old(open), open, taken, keys, idle, limits, nowMs);
    }

    /** The pass itself. */
    method DispatchAll(keys: seq<Key>, nowMs: nat, idle: nat) returns (taken: seq<Key>)
      requires next == 0
      modifies this`open, this`next
      ensures Passed(old(open), open, taken, keys, idle, limits, nowMs)
      ensures Earliest(next, old(open), keys, limits, nowMs)
    {
      taken := [];
      PassStart(open, idle, limits, nowMs);
      hide *;
      var i := 0;
      while i < |keys|
        invariant 0 <= i <= |keys|
        invariant Passed(old(open), open, taken, keys[..i], idle, limits, nowMs)
        invariant Earliest(next, old(open), keys[..i], limits, nowMs)
      {
        var key := keys[i];
        assert keys[..i + 1] == keys[..i] + [key];
        ghost var before, left := next, open;
        var took := DispatchSlot(key, nowMs, |taken| < idle);
        EarliestStep(before, next, old(open), left, taken, keys[..i], key, idle, limits, nowMs);
        PassStep(old(open), left, open, taken, keys[..i], key, took, idle, limits, nowMs);
        if took { taken := taken + [key]; }
        i := i + 1;
      }
      assert keys[..i] == keys;
    }

    /** What a pass does under the mutex of one slot. */
    method DispatchSlot(key: Key, nowMs: nat, idle: bool) returns (took: bool)
      modifies this`open, this`next
      ensures took <==> key in old(open) && Ready(old(open)[key], limits, nowMs) && idle
      ensures open == if took then old(open) - {key} else old(open)
      ensures var at := if key in old(open) then ReadyAt(old(open)[key], limits, nowMs) else 0;
        next == if at > 0 && (old(next) == 0 || at < old(next)) then at else old(next)
    {
      took := false;
      if key in open {
        if Ready(open[key], limits, nowMs) {
          if idle {
            took := true;
            open := open - {key};
          }
        } else {
          var readyAt := ReadyAt(open[key], limits, nowMs);
          if readyAt > 0 && (next == 0 || readyAt < next) { next := readyAt; }
        }
      }
    }
  }

  /** `open` is `before` without the batches of `taken`. */
  ghost predicate Without(before: map<Key, Open>, open: map<Key, Open>, taken: seq<Key>) {
    (forall k :: k in open <==> k in before && k !in taken) && forall k :: k in open ==> open[k] == before[k]
  }

  /** A pass over `keys` has taken `taken` out of `before`. */
  ghost predicate Passed(before: map<Key, Open>, open: map<Key, Open>, taken: seq<Key>, keys: seq<Key>, idle: nat,
      l: Limits, nowMs: nat)
  {
    && |taken| <= idle && Without(before, open, taken)
    && (forall k :: k in taken ==> k in before && Ready(before[k], l, nowMs))
    && (|taken| < idle ==> forall k :: k in keys && k in open ==> !Ready(open[k], l, nowMs))
  }

  lemma PassStart(open: map<Key, Open>, idle: nat, l: Limits, nowMs: nat)
    ensures Passed(open, open, [], [], idle, l, nowMs) && Earliest(0, open, [], l, nowMs)
  {
  }

  lemma PassStep(before: map<Key, Open>, open: map<Key, Open>, next: map<Key, Open>, taken: seq<Key>, keys: seq<Key>,
      key: Key,
                 took: bool, idle: nat, l: Limits, nowMs: nat)
    requires Passed(before, open, taken, keys, idle, l, nowMs)
    requires (took <==> key in open && Ready(open[key], l, nowMs) && |taken| < idle)
    requires next == if took then open - {key} else open
    ensures Passed(before, next, if took then taken + [key] else taken, keys + [key], idle, l, nowMs)
  {
    hide Ready;
  }

  lemma PassEnds(before: map<Key, Open>, open: map<Key, Open>, taken: seq<Key>, keys: seq<Key>, idle: nat, l: Limits,
      nowMs: nat)
    requires Passed(before, open, taken, keys, idle, l, nowMs)
    ensures |taken| <= idle && Without(before, open, taken)
    ensures forall k :: k in taken ==> k in before && Ready(before[k], l, nowMs)
    ensures |taken| < idle ==> forall k :: k in keys && k in open ==> !Ready(open[k], l, nowMs)
  {
  }

  lemma EarliestStep(earliest: nat, next: nat, before: map<Key, Open>, open: map<Key, Open>, taken: seq<Key>,
      keys: seq<Key>,
                     key: Key, idle: nat, l: Limits, nowMs: nat)
    requires Earliest(earliest, before, keys, l, nowMs) && Passed(before, open, taken, keys, idle, l, nowMs)
    requires var at := if key in open then ReadyAt(open[key], l, nowMs) else 0;
      next == if at > 0 && (earliest == 0 || at < earliest) then at else earliest
    ensures Earliest(next, before, keys + [key], l, nowMs)
  {
    assert key in before && key !in open ==> ReadyAt(before[key], l, nowMs) == 0;
    hide Ready, ReadyAt;
    if next != 0 && next == earliest {
      var k :| k in keys && k in before && ReadyAt(before[k], l, nowMs) == earliest;
      assert k in keys + [key];
    } else if next != 0 {
      assert key in keys + [key];
    }
  }

  /** A pass that returns at once misses nothing: what the last pass left unready stays so until then, and
      for ever when it set no time, as long as no call joins. */
  lemma EarlyPassMissesNothing(next: nat, open: map<Key, Open>, keys: seq<Key>, l: Limits, lastMs: nat, nowMs: nat,
      key: Key)
    requires Earliest(next, open, keys, l, lastMs) && key in keys && key in open && !Ready(open[key], l, lastMs)
    requires lastMs <= nowMs && (nowMs < next || next == 0)
    ensures !Ready(open[key], l, nowMs)
  {
    assert ReadyAt(open[key], l, lastMs) != 0 ==> 0 < next <= ReadyAt(open[key], l, lastMs);
  }

  // ---------------------------------------------------------------- the helper over whole runs

  /** `arrived` lists all calls in the order of their critical sections; `waiting` are the calls with a
      notifier; `answered` is what calls have returned. */
  datatype Helper = Helper(open: map<Key, Open>, batches: seq<Batch>,
    arrived: seq<Request>, waiting: set<int>, answered: map<int, int>)

  datatype Step =
    | Submit(r: Request, nowMs: nat)
    | Dispatch(key: Key, nowMs: nat)
    | Finish(b: nat, ret: int)

  const START := Helper(map[], [], [], {}, map[])

  function OpenAt(h: Helper, key: Key): Open { if key in h.open then h.open[key] else EMPTY }

  /** Two calls are never the same call. */
  ghost predicate Enabled(l: Limits, h: Helper, step: Step) {
    match step
    case Submit(r, _) => forall k :: 0 <= k < |h.arrived| ==> h.arrived[k].id != r.id
    case Dispatch(key, nowMs) => key in h.open && Ready(h.open[key], l, nowMs)
    case Finish(b, _) => b < |h.batches| && h.batches[b].ret.None?
  }

  function Taken(h: Helper, key: Key, o: Open, leader: Option<int>): Helper {
    h.(open := h.open - {key}, batches := h.batches + [Batch(key, o.tasks, leader, None)])
  }

  /** Notify wakes the tasks that wait; the leader returns the code itself. */
  function Answer(answered: map<int, int>, waiting: set<int>, b: Batch, ret: int, n: nat): map<int, int>
    requires n <= |b.tasks|
  {
    if n == 0 then answered
    else
      var m := Answer(answered, waiting, b, ret, n - 1);
      var id := b.tasks[n - 1].id;
      if id in waiting || b.leader == Some(id) then m[id := ret] else m
  }

  function Do(l: Limits, h: Helper, step: Step): Helper
    requires Enabled(l, h, step)
  {
    match step
    case Submit(r, nowMs) =>
      var o := AddTask(OpenAt(h, r.key), r, nowMs);
      var h1 := h.(arrived := h.arrived + [r]);
      if Ready(o, l, nowMs) then Taken(h1, r.key, o, Some(r.id))
      else h1.(open := h.open[r.key := o], waiting := h.waiting + {r.id})
    case Dispatch(key, nowMs) => Taken(h, key, h.open[key], None)
    case Finish(b, ret) =>
      h.(batches := h.batches[b := h.batches[b].(ret := Some(ret))],
         answered := Answer(h.answered, h.waiting, h.batches[b], ret, |h.batches[b].tasks|))
  }

  ghost predicate Runs(l: Limits, h: Helper, steps: seq<Step>)
    decreases |steps|
  {
    steps != [] ==> Enabled(l, h, steps[0]) && Runs(l, Do(l, h, steps[0]), steps[1..])
  }

  ghost function Final(l: Limits, h: Helper, steps: seq<Step>): Helper
    requires Runs(l, h, steps)
    decreases |steps|
  {
    if steps == [] then h else Final(l, Do(l, h, steps[0]), steps[1..])
  }

  // ---------------------------------------------------------------- nothing lost, nothing twice, in order

  function Of(rs: seq<Request>, key: Key): seq<Request> {
    if rs == [] then [] else Of(rs[..|rs| - 1], key) + (if rs[|rs| - 1].key == key then [rs[|rs| - 1]] else [])
  }

  /** The tasks of all taken batches of one key, in the order in which they were taken. */
  function TakenOf(bs: seq<Batch>, key: Key): seq<Request> {
    if bs == [] then [] else TakenOf(bs[..|bs| - 1], key) + (if bs[|bs| - 1].key == key then bs[|bs| - 1].tasks else [])
  }

  ghost predicate Conserved(h: Helper) {
    forall key :: Of(h.arrived, key) == TakenOf(h.batches, key) + OpenAt(h, key).tasks
  }

  lemma SubmitConserves(l: Limits, h: Helper, r: Request, nowMs: nat)
    requires Conserved(h) && Enabled(l, h, Submit(r, nowMs))
    ensures Conserved(Do(l, h, Submit(r, nowMs)))
  {
    hide Ready, Of, TakenOf, U32;
    var h' := Do(l, h, Submit(r, nowMs));
    var o := OpenAt(h, r.key);
    forall key ensures Of(h'.arrived, key) == TakenOf(h'.batches, key) + OpenAt(h', key).tasks {
      OneMoreArrived(h.arrived, r, key);
      assert Of(h.arrived, key) == TakenOf(h.batches, key) + OpenAt(h, key).tasks;
      if Ready(AddTask(o, r, nowMs), l, nowMs) {
        OneMoreTaken(h.batches, Batch(r.key, o.tasks + [r], Some(r.id), None), key);
        assert TakenOf(h.batches, key) + [] == TakenOf(h.batches, key);
      }
      assert TakenOf(h.batches, key) + (o.tasks + [r]) == TakenOf(h.batches, key) + o.tasks + [r];
      assert Of(h.arrived, key) + [] == Of(h.arrived, key);
      if key != r.key { assert OpenAt(h', key) == OpenAt(h, key); }
    }
  }

  lemma OneMoreArrived(rs: seq<Request>, r: Request, key: Key)
    ensures Of(rs + [r], key) == Of(rs, key) + (if r.key == key then [r] else [])
  {
  }

  lemma OneMoreTaken(bs: seq<Batch>, b: Batch, key: Key)
    ensures TakenOf(bs + [b], key) == TakenOf(bs, key) + (if b.key == key then b.tasks else [])
  {
  }

  lemma DispatchConserves(l: Limits, h: Helper, key: Key, nowMs: nat)
    requires Conserved(h) && Enabled(l, h, Dispatch(key, nowMs))
    ensures Conserved(Do(l, h, Dispatch(key, nowMs)))
  {
  }

  lemma {:induction false} RetChangesNoTasks(bs: seq<Batch>, b: nat, ret: int, key: Key)
    requires b < |bs|
    ensures TakenOf(bs[b := bs[b].(ret := Some(ret))], key) == TakenOf(bs, key)
    decreases |bs|
  {
    var cs := bs[b := bs[b].(ret := Some(ret))];
    var n := |bs| - 1;
    if b < n {
      assert cs[..n] == bs[..n][b := bs[b].(ret := Some(ret))];
      RetChangesNoTasks(bs[..n], b, ret, key);
    } else {
      assert cs[..n] == bs[..n];
    }
  }

  lemma FinishConserves(l: Limits, h: Helper, b: nat, ret: int)
    requires Conserved(h) && Enabled(l, h, Finish(b, ret))
    ensures Conserved(Do(l, h, Finish(b, ret)))
  {
    var h' := Do(l, h, Finish(b, ret));
    forall k ensures Of(h'.arrived, k) == TakenOf(h'.batches, k) + OpenAt(h', k).tasks {
      RetChangesNoTasks(h.batches, b, ret, k);
    }
  }

  // ---------------------------------------------------------------- everybody is answered once

  ghost predicate Distinct(rs: seq<Request>) { forall i, j :: 0 <= i < j < |rs| ==> rs[i].id != rs[j].id }

  ghost predicate Mine(h: Helper, id: int, b: nat) {
    b < |h.batches| && exists k :: 0 <= k < |h.batches[b].tasks| && h.batches[b].tasks[k].id == id
  }

  /** Whoever is in a batch leads it or waits. */
  ghost predicate JoinInv(h: Helper) {
    && Distinct(h.arrived)
    && (forall b, k :: 0 <= b < |h.batches| && 0 <= k < |h.batches[b].tasks| ==>
          h.batches[b].tasks[k] in h.arrived
          && (h.batches[b].tasks[k].id in h.waiting || h.batches[b].leader == Some(h.batches[b].tasks[k].id)))
    && (forall key, k :: key in h.open && 0 <= k < |h.open[key].tasks| ==>
          h.open[key].tasks[k] in h.arrived && h.open[key].tasks[k].id in h.waiting)
  }

  /** A call has its answer exactly when its batch has one, and it is the same. */
  ghost predicate ReturnInv(h: Helper) {
    && (forall id :: id in h.answered ==> exists b: nat :: Mine(h, id, b) && h.batches[b].ret == Some(h.answered[id]))
    && (forall b: nat, id :: Mine(h, id, b) && h.batches[b].ret.Some? ==> id in h.answered)
  }

  ghost predicate AnswerInv(h: Helper) { JoinInv(h) && ReturnInv(h) }

  lemma {:induction false} OfKeepsDistinct(rs: seq<Request>, key: Key)
    requires Distinct(rs)
    ensures Distinct(Of(rs, key)) && forall x :: x in Of(rs, key) ==> x in rs && x.key == key
    decreases |rs|
  {
    if rs != [] {
      var front, last := rs[..|rs| - 1], rs[|rs| - 1];
      OfKeepsDistinct(front, key);
      var of := Of(front, key);
      forall i | 0 <= i < |of| ensures of[i].id != last.id {
        assert of[i] in front;
        var j :| 0 <= j < |front| && front[j] == of[i];
        assert rs[j] == front[j];
      }
    }
  }

  /** Where a task of batch `b` stands among all taken tasks of its key. */
  lemma {:induction false} TaskPosition(bs: seq<Batch>, b: nat, k: nat)
    requires b < |bs| && k < |bs[b].tasks|
    ensures var p := |TakenOf(bs[..b], bs[b].key)| + k;
      p < |TakenOf(bs, bs[b].key)| && TakenOf(bs, bs[b].key)[p] == bs[b].tasks[k]
    decreases |bs|
  {
    var n := |bs| - 1;
    if b < n {
      assert bs[..n][..b] == bs[..b];
      TaskPosition(bs[..n], b, k);
    }
  }

  lemma {:induction false} LaterBatchesStandBehind(bs: seq<Batch>, b: nat, c: nat)
    requires b < c <= |bs|
    ensures |TakenOf(bs[..c], bs[b].key)| >= |TakenOf(bs[..b], bs[b].key)| + |bs[b].tasks|
    decreases c
  {
    assert bs[..c][..c - 1] == bs[..c - 1];
    if b < c - 1 { LaterBatchesStandBehind(bs, b, c - 1); }
  }

  /** A call is in one batch only, and that batch is of its own queue. */
  lemma InOneBatch(h: Helper, b: nat, k: nat, c: nat, l: nat)
    requires Conserved(h) && Distinct(h.arrived) && b <= c < |h.batches|
    requires k < |h.batches[b].tasks| && l < |h.batches[c].tasks|
    requires h.batches[b].tasks[k].id == h.batches[c].tasks[l].id
    ensures b == c && k == l && h.batches[b].tasks[k].key == h.batches[b].key
  {
    var x, y := h.batches[b].tasks[k], h.batches[c].tasks[l];
    var p := TaskOfKey(h, b, k);
    var q := TaskOfKey(h, c, l);
    if b < c && h.batches[b].key == h.batches[c].key { LaterBatchesStandBehind(h.batches, b, c); }
    SameCall(h.arrived, x, y);
    OfKeepsDistinct(h.arrived, x.key);
  }

  lemma SameCall(rs: seq<Request>, x: Request, y: Request)
    requires Distinct(rs) && x in rs && y in rs
    ensures x.id == y.id ==> x == y
  {
  }

  lemma TaskOfKey(h: Helper, b: nat, k: nat) returns (p: nat)
    requires Conserved(h) && Distinct(h.arrived) && b < |h.batches| && k < |h.batches[b].tasks|
    ensures h.batches[b].tasks[k] in h.arrived && h.batches[b].tasks[k].key == h.batches[b].key
    ensures p == |TakenOf(h.batches[..b], h.batches[b].key)| + k && p < |Of(h.arrived, h.batches[b].key)|
    ensures Of(h.arrived, h.batches[b].key)[p] == h.batches[b].tasks[k]
  {
    var key := h.batches[b].key;
    p := |TakenOf(h.batches[..b], key)| + k;
    TaskPosition(h.batches, b, k);
    OfKeepsDistinct(h.arrived, key);
    assert Of(h.arrived, key) == TakenOf(h.batches, key) + OpenAt(h, key).tasks;
    assert Of(h.arrived, key)[p] in Of(h.arrived, key);
  }

  ghost predicate AllReachable(waiting: set<int>, b: Batch) {
    forall k :: 0 <= k < |b.tasks| ==> b.tasks[k].id in waiting || b.leader == Some(b.tasks[k].id)
  }

  lemma {:induction false} AnswerReachesAll(answered: map<int, int>, waiting: set<int>, b: Batch, ret: int, n: nat)
    requires n <= |b.tasks| && AllReachable(waiting, b)
    ensures var m := Answer(answered, waiting, b, ret, n);
      && (forall k :: 0 <= k < n ==> b.tasks[k].id in m && m[b.tasks[k].id] == ret)
      && (forall id :: id in answered ==> id in m)
      && (forall id :: id in m ==>
        (id in answered && m[id] == answered[id]) || (m[id] == ret && exists k :: 0 <= k < n && b.tasks[k].id == id))
    decreases n
  {
    if n > 0 { AnswerReachesAll(answered, waiting, b, ret, n - 1); }
  }

  lemma MineStays(h: Helper, h': Helper, id: int, b: nat)
    requires b < |h.batches| <= |h'.batches| && h'.batches[b].tasks == h.batches[b].tasks
    ensures Mine(h', id, b) == Mine(h, id, b)
  {
  }

  /** A batch that has just been taken has no answer yet. */
  lemma ReturnsStay(h: Helper, h': Helper)
    requires ReturnInv(h) && h'.answered == h.answered && h.batches <= h'.batches
    requires forall b :: |h.batches| <= b < |h'.batches| ==> h'.batches[b].ret.None?
    ensures ReturnInv(h')
  {
    forall id | id in h'.answered
      ensures exists b: nat :: Mine(h', id, b) && h'.batches[b].ret == Some(h'.answered[id])
    {
      var b: nat :| Mine(h, id, b) && h.batches[b].ret == Some(h.answered[id]);
      MineStays(h, h', id, b);
    }
    forall b: nat, id | Mine(h', id, b) && h'.batches[b].ret.Some? ensures id in h'.answered {
      if b < |h.batches| { MineStays(h, h', id, b); }
    }
  }

  lemma SubmitKeepsAnswers(l: Limits, h: Helper, r: Request, nowMs: nat)
    requires AnswerInv(h) && Enabled(l, h, Submit(r, nowMs))
    ensures AnswerInv(Do(l, h, Submit(r, nowMs)))
  {
    hide ReturnInv, Ready, U32;
    ReturnsStay(h, Do(l, h, Submit(r, nowMs)));
    SubmitKeepsJoined(l, h, r, nowMs);
  }

  lemma SubmitKeepsJoined(l: Limits, h: Helper, r: Request, nowMs: nat)
    requires JoinInv(h) && Enabled(l, h, Submit(r, nowMs))
    ensures JoinInv(Do(l, h, Submit(r, nowMs)))
  {
    hide Ready, U32;
  }

  lemma DispatchKeepsAnswers(l: Limits, h: Helper, key: Key, nowMs: nat)
    requires AnswerInv(h) && Enabled(l, h, Dispatch(key, nowMs))
    ensures AnswerInv(Do(l, h, Dispatch(key, nowMs)))
  {
    hide ReturnInv;
    ReturnsStay(h, Do(l, h, Dispatch(key, nowMs)));
  }

  lemma FinishKeepsAnswers(l: Limits, h: Helper, b: nat, ret: int)
    requires AnswerInv(h) && Enabled(l, h, Finish(b, ret))
    ensures AnswerInv(Do(l, h, Finish(b, ret)))
  {
    var h' := Do(l, h, Finish(b, ret));
    var batch := h.batches[b];
    AnswerReachesAll(h.answered, h.waiting, batch, ret, |batch.tasks|);
    hide Answer;
    assert forall c :: 0 <= c < |h.batches| ==> h'.batches[c].tasks == h.batches[c].tasks;
    forall id, c: nat ensures Mine(h', id, c) == Mine(h, id, c) {}
    forall id | id in h'.answered
      ensures exists c: nat :: Mine(h', id, c) && h'.batches[c].ret == Some(h'.answered[id])
    {
      if id in h.answered && h'.answered[id] == h.answered[id] {
        var c: nat :| Mine(h, id, c) && h.batches[c].ret == Some(h.answered[id]);
        assert c != b;
        assert Mine(h', id, c);
      } else {
        assert Mine(h', id, b);
      }
    }
    forall c: nat, id | Mine(h', id, c) && h'.batches[c].ret.Some? ensures id in h'.answered {
      assert Mine(h, id, c);
    }
    forall c, k | 0 <= c < |h'.batches| && 0 <= k < |h'.batches[c].tasks|
      ensures h'.batches[c].tasks[k] in h'.arrived
      ensures (h'.batches[c].tasks[k].id in h'.waiting || h'.batches[c].leader == Some(h'.batches[c].tasks[k].id))
    {
      assert h.batches[c].tasks[k] in h.arrived;
    }
  }

  ghost predicate Inv(h: Helper) { Conserved(h) && AnswerInv(h) }

  // ---------------------------------------------------------------- how large an open batch gets

  function Size(tasks: seq<Request>): nat {
    if tasks == [] then 0 else Size(tasks[..|tasks| - 1]) + tasks[|tasks| - 1].size
  }

  /** The counters say what the batch holds, as far as 32 bits go, and it was not ready when last joined. */
  ghost predicate OpenInv(l: Limits, o: Open) {
    && o.nbyte == U32(Size(o.tasks)) && o.nitems == U32(|AllItems(o.tasks)|)
    && (o.nitems == 0 || o.start == 0 || (U32(o.nbyte * 2) < l.bytes && U32(o.nitems * 2) < l.batch))
  }

  ghost predicate SmallInv(l: Limits, h: Helper) { forall key :: key in h.open ==> OpenInv(l, h.open[key]) }

  lemma U32Adds(a: nat, b: nat)
    ensures U32(U32(a) + b) == U32(a + b)
  {
    var k := a / 0x1_0000_0000;
    assert U32(a) == a - 0x1_0000_0000 * k;
  }

  lemma AddTaskCounts(l: Limits, o: Open, r: Request, nowMs: nat)
    requires (o == EMPTY || OpenInv(l, o)) && !Ready(AddTask(o, r, nowMs), l, nowMs)
    ensures OpenInv(l, AddTask(o, r, nowMs))
  {
    var tasks := o.tasks + [r];
    assert tasks[..|tasks| - 1] == o.tasks;
    U32Adds(Size(o.tasks), r.size);
    U32Adds(|AllItems(o.tasks)|, |r.items|);
    hide U32;
    assert Size(tasks) == Size(o.tasks) + r.size && |AllItems(tasks)| == |AllItems(o.tasks)| + |r.items|;
    assert o == EMPTY ==> o.nbyte == U32(Size(o.tasks)) && o.nitems == U32(|AllItems(o.tasks)|) by { U32OfZero(); }
  }

  lemma U32OfZero()
    ensures U32(0) == 0
  {
  }

  lemma {:induction false} RunKeepsSmall(l: Limits, h: Helper, steps: seq<Step>)
    requires SmallInv(l, h) && Runs(l, h, steps)
    ensures SmallInv(l, Final(l, h, steps))
    decreases |steps|
  {
    if steps != [] {
      hide Answer, OpenInv, Ready, AddTask;
      if steps[0].Submit? {
        var o := OpenAt(h, steps[0].r.key);
        if !Ready(AddTask(o, steps[0].r, steps[0].nowMs), l, steps[0].nowMs) {
          AddTaskCounts(l, o, steps[0].r, steps[0].nowMs);
        }
      }
      assert SmallInv(l, Do(l, h, steps[0]));
      RunKeepsSmall(l, Do(l, h, steps[0]), steps[1..]);
    }
  }

  /** A batch is left open only while it is below half of both limits; the counters tell so exactly as
      long as the batch holds less than two gigabytes and items. */
  lemma OpenBatchIsSmall(l: Limits, steps: seq<Step>, key: Key)
    requires Runs(l, START, steps)
    ensures var h := Final(l, START, steps);
      key in h.open ==>
        var o := h.open[key];
        (0 < |AllItems(o.tasks)| < 0x8000_0000 && Size(o.tasks) < 0x8000_0000 && o.start != 0 ==>
              Size(o.tasks) * 2 < l.bytes && |AllItems(o.tasks)| * 2 < l.batch)
  {
    hide Runs, Final, OpenInv, U32, Size, AllItems;
    assert SmallInv(l, START);
    RunKeepsSmall(l, START, steps);
    var h := Final(l, START, steps);
    if key in h.open { OpenIsSmall(l, h.open[key]); }
  }

  lemma OpenIsSmall(l: Limits, o: Open)
    requires OpenInv(l, o)
    ensures 0 < |AllItems(o.tasks)| < 0x8000_0000 && Size(o.tasks) < 0x8000_0000 && o.start != 0 ==>
      Size(o.tasks) * 2 < l.bytes && |AllItems(o.tasks)| * 2 < l.batch
  {
  }

  lemma {:induction false} RunKeepsInv(l: Limits, h: Helper, steps: seq<Step>)
    requires Inv(h) && Runs(l, h, steps)
    ensures Inv(Final(l, h, steps))
    decreases |steps|
  {
    if steps != [] {
      hide Conserved, AnswerInv, Do, Enabled;
      match steps[0] {
        case Submit(r, nowMs) => SubmitConserves(l, h, r, nowMs); SubmitKeepsAnswers(l, h, r, nowMs);
        case Dispatch(key, nowMs) => DispatchConserves(l, h, key, nowMs); DispatchKeepsAnswers(l, h, key, nowMs);
        case Finish(b, ret) => FinishConserves(l, h, b, ret); FinishKeepsAnswers(l, h, b, ret);
      }
      RunKeepsInv(l, Do(l, h, steps[0]), steps[1..]);
    }
  }

  /** In every reachable state the requests of a queue are, in the order in which they arrived, exactly
      those of its batches in the order in which they were taken, and then those of its open batch. */
  lemma RequestsAreConserved(l: Limits, steps: seq<Step>, key: Key)
    requires Runs(l, START, steps)
    ensures var h := Final(l, START, steps); Of(h.arrived, key) == TakenOf(h.batches, key) + OpenAt(h, key).tasks
  {
    hide Answer, AnswerInv, Of, TakenOf, Runs, Final;
    StartHoldsAll(l);
    RunKeepsInv(l, START, steps);
  }

  /** Every call of a batch that was added has that batch's return code; no other call has an answer; and
      a call is in one batch only, so its answer is never replaced. */
  lemma EveryCallAnsweredOnce(l: Limits, steps: seq<Step>, b: nat, k: nat, c: nat, m: nat)
    requires Runs(l, START, steps)
    ensures var h := Final(l, START, steps);
      b < |h.batches| && k < |h.batches[b].tasks| ==>
        && h.batches[b].tasks[k].key == h.batches[b].key
        && (if h.batches[b].ret.Some? then h.batches[b].tasks[k].id in h.answered
          && h.answered[h.batches[b].tasks[k].id] == h.batches[b].ret.value
            else h.batches[b].tasks[k].id !in h.answered)
        && (c < |h.batches| && m < |h.batches[c].tasks| && h.batches[c].tasks[m].id == h.batches[b].tasks[k].id ==>
          b == c && k == m)
  {
    hide *;
    StartHoldsAll(l);
    RunKeepsInv(l, START, steps);
    var h := Final(l, START, steps);
    if b < |h.batches| && k < |h.batches[b].tasks| {
      AnsweredByOwnBatch(h, b, k);
      if c < |h.batches| && m < |h.batches[c].tasks| && h.batches[c].tasks[m].id == h.batches[b].tasks[k].id {
        InvIsOneBatch(h, b, k, c, m);
      }
    }
  }

  lemma InvIsOneBatch(h: Helper, b: nat, k: nat, c: nat, l: nat)
    requires Inv(h) && b < |h.batches| && c < |h.batches| && k < |h.batches[b].tasks| && l < |h.batches[c].tasks|
    requires h.batches[b].tasks[k].id == h.batches[c].tasks[l].id
    ensures b == c && k == l && h.batches[b].tasks[k].key == h.batches[b].key
  {
    hide Conserved;
    if b <= c { InOneBatch(h, b, k, c, l); } else { InOneBatch(h, c, l, b, k); }
  }

  lemma AnsweredByOwnBatch(h: Helper, b: nat, k: nat)
    requires Inv(h) && b < |h.batches| && k < |h.batches[b].tasks|
    ensures h.batches[b].tasks[k].key == h.batches[b].key
    ensures var id := h.batches[b].tasks[k].id;
      if h.batches[b].ret.Some? then id in h.answered && h.answered[id] == h.batches[b].ret.value else id !in h.answered
  {
    var id := h.batches[b].tasks[k].id;
    InvIsOneBatch(h, b, k, b, k);
    hide Conserved;
    assert Mine(h, id, b);
    if id in h.answered {
      var d: nat :| Mine(h, id, d) && h.batches[d].ret == Some(h.answered[id]);
      var n :| 0 <= n < |h.batches[d].tasks| && h.batches[d].tasks[n].id == id;
      InvIsOneBatch(h, b, k, d, n);
    }
  }

  /** A call that is in no batch waits in the open batch of its queue without an answer. */
  lemma OpenCallsWait(l: Limits, steps: seq<Step>, key: Key, k: nat)
    requires Runs(l, START, steps)
    ensures var h := Final(l, START, steps);
      k < |OpenAt(h, key).tasks| ==>
        var r := OpenAt(h, key).tasks[k]; r.key == key && r.id in h.waiting && r.id !in h.answered
  {
    hide Inv, Runs, Final;
    StartHoldsInv();
    RunKeepsInv(l, START, steps);
    var h := Final(l, START, steps);
    if k < |OpenAt(h, key).tasks| { OpenHasNoAnswer(h, key, k); }
  }

  lemma StartHoldsInv()
    ensures Inv(START)
  {
  }

  // ---------------------------------------------------------------- when an open batch can be taken

  /** In every reachable state an open batch can become ready if and only if its items, counted in 32 bits,
      are not zero and its first clock reading was not; and then it is ready from start plus delay on. */
  lemma OpenBatchBecomesReady(l: Limits, steps: seq<Step>, key: Key)
    requires Runs(l, START, steps)
    ensures var h := Final(l, START, steps);
      key in h.open ==>
        var o := h.open[key];
        && o.nitems == U32(|AllItems(o.tasks)|)
        && ((exists nowMs: nat :: Ready(o, l, nowMs)) <==> U32(|AllItems(o.tasks)|) != 0 && o.start != 0)
        && (U32(|AllItems(o.tasks)|) != 0 && o.start != 0 ==>
          forall nowMs: nat :: o.start + l.delayMs <= nowMs ==> Ready(o, l, nowMs))
  {
    RunKeepsSmall(l, START, steps);
    var h := Final(l, START, steps);
    hide Runs, Final, U32, AllItems, Size;
    if key in h.open {
      var o := h.open[key];
      assert OpenInv(l, o);
      if o.nitems != 0 && o.start != 0 { assert Ready(o, l, o.start + l.delayMs); }
    }
  }

  /** What the producer sends: requests that hold items, at times later than the origin of the clock. */
  predicate Proper(step: Step) { step.Submit? ==> step.nowMs > 0 && step.r.items != [] }

  ghost predicate LiveInv(h: Helper) {
    forall key :: key in h.open ==>
      h.open[key].tasks != [] && h.open[key].start != 0 && AllItems(h.open[key].tasks) != []
  }

  lemma StepKeepsLive(l: Limits, h: Helper, step: Step)
    requires LiveInv(h) && Enabled(l, h, step) && Proper(step)
    ensures LiveInv(Do(l, h, step))
  {
    hide Answer, Ready, U32;
    if step.Submit? { ItemsJoin(OpenAt(h, step.r.key).tasks, step.r); }
    hide AllItems;
  }

  lemma {:induction false} RunKeepsLive(l: Limits, h: Helper, steps: seq<Step>)
    requires LiveInv(h) && Runs(l, h, steps) && forall step :: step in steps ==> Proper(step)
    ensures LiveInv(Final(l, h, steps))
    decreases |steps|
  {
    if steps != [] {
      assert steps[0] in steps;
      StepKeepsLive(l, h, steps[0]);
      hide LiveInv, Do, Enabled, Proper;
      RunKeepsLive(l, Do(l, h, steps[0]), steps[1..]);
    }
  }

  /** What MakeAddRequests packs: requests of at most `batch` items. */
  predicate Packed(l: Limits, step: Step) { step.Submit? ==> |step.r.items| <= l.batch }

  /** Open batches hold less than half of what a batch may hold, and the counters say so. */
  ghost predicate FitInv(l: Limits, h: Helper) {
    forall key :: key in h.open ==>
      && h.open[key].start != 0 && 0 < |AllItems(h.open[key].tasks)| * 2 < l.batch
      && h.open[key].nitems == |AllItems(h.open[key].tasks)|
  }

  lemma JoinedFits(l: Limits, o: Open, r: Request, nowMs: nat)
    requires 3 * l.batch < 0x1_0000_0000 && nowMs > 0 && r.items != [] && |r.items| <= l.batch
    requires o == EMPTY || (o.start != 0 && 0 < |AllItems(o.tasks)| * 2 < l.batch && o.nitems == |AllItems(o.tasks)|)
    requires !Ready(AddTask(o, r, nowMs), l, nowMs)
    ensures var o' := AddTask(o, r, nowMs);
      o'.start != 0 && 0 < |AllItems(o'.tasks)| * 2 < l.batch && o'.nitems == |AllItems(o'.tasks)|
  {
    var n, before := |AllItems(o.tasks)| + |r.items|, o.nitems;
    ItemsJoin(o.tasks, r);
    assert before == |AllItems(o.tasks)| by { if o == EMPTY { assert AllItems([]) == []; } }
    hide AllItems;
    assert 2 * n < 3 * l.batch || 2 * n <= 2 * l.batch;
    U32IsExact(before + |r.items|);
    U32IsExact(n * 2);
    hide U32;
  }

  /** The items of tasks one after another. */
  lemma {:induction false} AllItemsJoin(a: seq<Request>, b: seq<Request>)
    ensures AllItems(a + b) == AllItems(a) + AllItems(b)
    ensures |a| == 1 ==> AllItems(a) == a[0].items
    ensures AllItems([]) == []
    decreases |b|
  {
    assert |a| == 1 ==> a[..0] == [] && [] + a[0].items == a[0].items;
    if b == [] {
      assert a + b == a;
    } else {
      assert (a + b)[..|a + b| - 1] == a + b[..|b| - 1];
      AllItemsJoin(a, b[..|b| - 1]);
    }
  }

  lemma ItemsJoin(tasks: seq<Request>, r: Request)
    ensures |AllItems(tasks + [r])| == |AllItems(tasks)| + |r.items|
  {
    assert (tasks + [r])[..|tasks + [r]| - 1] == tasks;
  }

  lemma U32IsExact(x: nat)
    requires x < 0x1_0000_0000
    ensures U32(x) == x
  {
  }

  lemma StepKeepsFit(l: Limits, h: Helper, step: Step)
    requires 3 * l.batch < 0x1_0000_0000 && FitInv(l, h) && Enabled(l, h, step) && Proper(step) && Packed(l, step)
    ensures FitInv(l, Do(l, h, step))
  {
    hide Answer, Ready, AddTask, AllItems;
    if step.Submit? && !Ready(AddTask(OpenAt(h, step.r.key), step.r, step.nowMs), l, step.nowMs) {
      JoinedFits(l, OpenAt(h, step.r.key), step.r, step.nowMs);
    }
  }

  lemma {:induction false} RunKeepsFit(l: Limits, h: Helper, steps: seq<Step>)
    requires 3 * l.batch < 0x1_0000_0000 && FitInv(l, h) && Runs(l, h, steps)
    requires forall step :: step in steps ==> Proper(step) && Packed(l, step)
    ensures FitInv(l, Final(l, h, steps))
    decreases |steps|
  {
    if steps != [] {
      assert steps[0] in steps;
      StepKeepsFit(l, h, steps[0]);
      hide FitInv, Do, Enabled, Proper, Packed;
      RunKeepsFit(l, Do(l, h, steps[0]), steps[1..]);
    }
  }

  /** Over every run of packed requests the 32-bit counters never wrap: an open batch holds less than half of
      the items a batch may hold. */
  lemma OpenBatchIsUnderHalf(l: Limits, steps: seq<Step>, key: Key)
    requires 3 * l.batch < 0x1_0000_0000 && Runs(l, START, steps)
    requires forall step :: step in steps ==> Proper(step) && Packed(l, step)
    ensures var h := Final(l, START, steps);
      key in h.open ==>
        0 < |AllItems(h.open[key].tasks)| * 2 < l.batch && h.open[key].nitems == |AllItems(h.open[key].tasks)|
  {
    RunKeepsFit(l, START, steps);
  }

  /** So every call can be answered: in every reachable state the dispatcher can take any open batch once its
      delay is over, and adding it answers all its callers. */
  lemma EveryCallCanBeAnswered(l: Limits, steps: seq<Step>, key: Key, ret: int)
    requires 3 * l.batch < 0x1_0000_0000 && Runs(l, START, steps)
    requires forall step :: step in steps ==> Proper(step) && Packed(l, step)
    ensures var h := Final(l, START, steps);
      key in h.open ==>
        var o := h.open[key];
        var more := [Dispatch(key, o.start + l.delayMs), Finish(|h.batches|, ret)];
        && Runs(l, h, more)
        && forall k :: 0 <= k < |o.tasks| ==>
             o.tasks[k].id in Final(l, h, more).answered && Final(l, h, more).answered[o.tasks[k].id] == ret
  {
    OpenBatchIsUnderHalf(l, steps, key);
    SmallBatchCanBeAnswered(l, steps, key, ret);
  }

  /** The same without a bound on the requests, for an open batch of fewer than 2^32 items. */
  lemma SmallBatchCanBeAnswered(l: Limits, steps: seq<Step>, key: Key, ret: int)
    requires Runs(l, START, steps) && forall step :: step in steps ==> Proper(step)
    ensures var h := Final(l, START, steps);
      key in h.open && |AllItems(h.open[key].tasks)| < 0x1_0000_0000 ==>
        var o := h.open[key];
        var more := [Dispatch(key, o.start + l.delayMs), Finish(|h.batches|, ret)];
        && Runs(l, h, more)
        && forall k :: 0 <= k < |o.tasks| ==>
          o.tasks[k].id in Final(l, h, more).answered && Final(l, h, more).answered[o.tasks[k].id] == ret
  {
    hide *;
    StartHoldsAll(l);
    RunKeepsInv(l, START, steps);
    RunKeepsLive(l, START, steps);
    RunKeepsSmall(l, START, steps);
    var h := Final(l, START, steps);
    if key in h.open && |AllItems(h.open[key].tasks)| < 0x1_0000_0000 {
      LiveIsReady(l, h, key);
      DispatchedIsAnswered(l, h, key, ret);
    }
  }

  lemma StartHoldsAll(l: Limits)
    ensures Inv(START) && LiveInv(START) && SmallInv(l, START)
  {
  }

  lemma LiveIsReady(l: Limits, h: Helper, key: Key)
    requires LiveInv(h) && SmallInv(l, h) && key in h.open && |AllItems(h.open[key].tasks)| < 0x1_0000_0000
    ensures Ready(h.open[key], l, h.open[key].start + l.delayMs)
  {
    hide AllItems, Size;
    assert OpenInv(l, h.open[key]);
  }

  lemma DispatchedIsAnswered(l: Limits, h: Helper, key: Key, ret: int)
    requires Inv(h) && key in h.open && Ready(h.open[key], l, h.open[key].start + l.delayMs)
    ensures var o := h.open[key];
      var more := [Dispatch(key, o.start + l.delayMs), Finish(|h.batches|, ret)];
      && Runs(l, h, more)
      && forall k :: 0 <= k < |o.tasks| ==>
        o.tasks[k].id in Final(l, h, more).answered && Final(l, h, more).answered[o.tasks[k].id] == ret
  {
    var o := h.open[key];
    var a, b := Dispatch(key, o.start + l.delayMs), Finish(|h.batches|, ret);
    var h1 := Do(l, h, a);
    var batch := Batch(key, o.tasks, None, None);
    assert h1.batches[|h.batches|] == batch;
    assert AllReachable(h1.waiting, batch) by { hide Conserved; }
    AnswerReachesAll(h1.answered, h1.waiting, batch, ret, |batch.tasks|);
    hide Inv, Answer, Ready;
    var h2 := Do(l, h1, b);
    assert [a, b][1..] == [b] && [b][1..] == [];
    assert Runs(l, h2, []);
    assert Runs(l, h1, [b]) && Final(l, h1, [b]) == Final(l, h2, []);
  }

  lemma OpenHasNoAnswer(h: Helper, key: Key, k: nat)
    requires Inv(h) && k < |OpenAt(h, key).tasks|
    ensures var r := OpenAt(h, key).tasks[k]; r.key == key && r.id in h.waiting && r.id !in h.answered
  {
    var r := OpenAt(h, key).tasks[k];
    OfKeepsDistinct(h.arrived, key);
    hide Of, TakenOf, Answer;
    var all := Of(h.arrived, key);
    assert all == TakenOf(h.batches, key) + OpenAt(h, key).tasks;
    var p := |TakenOf(h.batches, key)| + k;
    assert all[p] == r && all[p] in all;
    if r.id in h.answered {
      var d: nat :| Mine(h, r.id, d) && h.batches[d].ret == Some(h.answered[r.id]);
      var n :| 0 <= n < |h.batches[d].tasks| && h.batches[d].tasks[n].id == r.id;
      OpenIsNoBatch(h, key, r, p, d, n);
    }
  }

  lemma OpenIsNoBatch(h: Helper, key: Key, r: Request, p: nat, d: nat, n: nat)
    requires Conserved(h) && Distinct(h.arrived) && r in h.arrived && r.key == key
    requires |TakenOf(h.batches, key)| <= p < |Of(h.arrived, key)| && Of(h.arrived, key)[p] == r
    requires d < |h.batches| && n < |h.batches[d].tasks|
    ensures h.batches[d].tasks[n].id != r.id
  {
    var q := TaskOfKey(h, d, n);
    TaskPosition(h.batches, d, n);
    OfKeepsDistinct(h.arrived, key);
    SameCall(h.arrived, h.batches[d].tasks[n], r);
  }
}
