/** Which items the log holds, by position: the k-th item of an add that is value v of instance n
    (phxqueue/store/basemgr.cpp:417-463). */
module StoreItems {
  import opened CursorId
  import opened Options
  import opened StoreLog

  datatype Pos = Pos(n: nat, v: nat, k: nat)

  /** An item for queue `q` stands at `p`. */
  predicate IsItem(log: Log, q: int, p: Pos) {
    && p.n < |log| && p.v < |log[p.n]| && log[p.n][p.v].StoreValue? && log[p.n][p.v].args.add.Some?
    && log[p.n][p.v].args.add.value.queueId == q && p.k < |log[p.n][p.v].args.add.value.items|
  }

  /** That item, with the instance as its cursor. */
  function ItemOf(log: Log, q: int, p: Pos): QItem
    requires IsItem(log, q, p) && p.n < TWO_64
  {
    log[p.n][p.v].args.add.value.items[p.k].(cursor := p.n)
  }

  predicate Before(a: Pos, b: Pos) { a.n < b.n || (a.n == b.n && (a.v < b.v || (a.v == b.v && a.k < b.k))) }

  /** `items` are the items at the positions `at`, in log order. */
  ghost predicate Stand(log: Log, q: int, at: seq<Pos>, items: seq<QItem>) {
    && |at| == |items|
    && (forall i :: 0 <= i < |at| ==> IsItem(log, q, at[i]) && at[i].n < TWO_64 && items[i] == ItemOf(log, q, at[i]))
    && (forall i, j :: 0 <= i < j < |at| ==> Before(at[i], at[j]))
  }

  // ---------------------------------------------------------------- one instance

  ghost predicate FromValue(log: Log, q: int, n: nat, v: nat, at: seq<Pos>, items: seq<QItem>) {
    Stand(log, q, at, items) && forall p :: p in at <==> IsItem(log, q, p) && p.n == n && v <= p.v
  }

  /** `items` are all that instance `n` holds for the queue, once each and in order. */
  ghost predicate InstanceHolds(log: Log, q: int, n: nat, items: seq<QItem>) {
    exists at: seq<Pos> :: FromValue(log, q, n, 0, at, items)
  }

  lemma {:induction false} ItemsFromValue(log: Log, q: int, n: nat, v: nat) returns (at: seq<Pos>)
    requires n < |log| && n < TWO_64 && v <= |log[n]|
    ensures FromValue(log, q, n, v, at, ItemsAt(log[n][v..], q, n))
    decreases |log[n]| - v
  {
    if v == |log[n]| {
      at := [];
    } else {
      var rest := ItemsFromValue(log, q, n, v + 1);
      var value, more := log[n][v], ItemsAt(log[n][v + 1..], q, n);
      assert log[n][v..][0] == value && log[n][v..][1..] == log[n][v + 1..];
      var some := ItemsOfValue(value, q, n);
      assert ItemsAt(log[n][v..], q, n) == some + more;
      var here := seq(|some|, k requires 0 <= k => Pos(n, v, k));
      at := here + rest;
      ValueStands(log, q, n, v, here);
      hide ItemsAt, ItemsOfValue, ItemOf;
      TogetherStand(log, q, here, some, rest, more);
      forall p ensures p in at <==> IsItem(log, q, p) && p.n == n && v <= p.v {
        assert p in at <==> p in here || p in rest;
      }
    }
  }

  lemma ValueStands(log: Log, q: int, n: nat, v: nat, here: seq<Pos>)
    requires n < |log| && n < TWO_64 && v < |log[n]|
    requires var some := ItemsOfValue(log[n][v], q, n);
      |here| == |some| && forall k :: 0 <= k < |here| ==> here[k] == Pos(n, v, k)
    ensures Stand(log, q, here, ItemsOfValue(log[n][v], q, n))
    ensures forall p :: p in here <==> IsItem(log, q, p) && p.n == n && p.v == v
  {
    forall p | IsItem(log, q, p) && p.n == n && p.v == v ensures p in here { assert here[p.k] == p; }
  }

  lemma TogetherStand(log: Log, q: int, a: seq<Pos>, x: seq<QItem>, b: seq<Pos>, y: seq<QItem>)
    requires Stand(log, q, a, x) && Stand(log, q, b, y) && forall i, j :: i in a && j in b ==> Before(i, j)
    ensures Stand(log, q, a + b, x + y)
  {
    forall i, j | 0 <= i < j < |a + b| ensures Before((a + b)[i], (a + b)[j]) {
      if i < |a| <= j { assert a[i] in a && b[j - |a|] in b; }
    }
  }

  lemma ItemsOfInstance(log: Log, q: int, n: nat) returns (at: seq<Pos>)
    requires n < |log| && n < TWO_64
    ensures FromValue(log, q, n, 0, at, ItemsAt(log[n], q, n))
    ensures InstanceHolds(log, q, n, ItemsAt(log[n], q, n))
  {
    assert log[n][0..] == log[n];
    at := ItemsFromValue(log, q, n, 0);
  }

  /** Instance `i` holds `x` for the queue. */
  ghost predicate Stored(log: Log, q: int, i: nat, x: QItem) {
    exists p :: IsItem(log, q, p) && p.n == i && i < TWO_64 && ItemOf(log, q, p) == x
  }

  lemma ItemsAreStored(log: Log, q: int, n: nat, x: QItem)
    requires n < |log| && n < TWO_64
    ensures x in ItemsAt(log[n], q, n) <==> Stored(log, q, n, x)
  {
    var at := ItemsOfInstance(log, q, n);
    var items := ItemsAt(log[n], q, n);
    hide ItemsAt, ItemOf;
    if x in items {
      var i :| 0 <= i < |items| && items[i] == x;
      assert at[i] in at;
    }
    if p :| IsItem(log, q, p) && p.n == n && ItemOf(log, q, p) == x {
      assert p in at;
      var i :| 0 <= i < |at| && at[i] == p;
      assert items[i] == x;
    }
  }

  // ---------------------------------------------------------------- what a group is to be given

  /** The items of the instances lo, ..., hi - 1 that consumer group `c` does not skip: each position of such an
      item once, in log order, and nothing else. */
  ghost predicate Enumerates(cfg: Config, log: Log, q: int, c: int, lo: nat, hi: nat, at: seq<Pos>, items: seq<QItem>) {
    && Stand(log, q, at, items)
    && forall p :: p in at <==>
         IsItem(log, q, p) && lo <= p.n < hi && p.n < TWO_64 && !cfg.skip(ItemOf(log, q, p), q, c)
  }

  ghost predicate Delivers(cfg: Config, log: Log, q: int, c: int, lo: nat, hi: nat, items: seq<QItem>) {
    exists at: seq<Pos> :: Enumerates(cfg, log, q, c, lo, hi, at, items)
  }

  lemma {:induction false} MeantStand(cfg: Config, log: Log, q: int, c: int, at: seq<Pos>, items: seq<QItem>)
      returns (some: seq<Pos>)
    requires Stand(log, q, at, items)
    ensures Stand(log, q, some, Meant(cfg, items, q, c))
    ensures forall p :: p in some <==>
      p in at && p.n < TWO_64 && IsItem(log, q, p) && !cfg.skip(ItemOf(log, q, p), q, c)
    decreases |items|
  {
    if items == [] {
      some := [];
    } else {
      var rest := MeantStand(cfg, log, q, c, at[1..], items[1..]);
      var head := if cfg.skip(items[0], q, c) then [] else [at[0]];
      some := head + rest;
      assert at == [at[0]] + at[1..];
      forall i, j | i in head && j in rest ensures Before(i, j) {
        var k :| 0 <= k < |at[1..]| && at[1..][k] == j;
        assert Before(at[0], at[k + 1]);
      }
      assert Stand(log, q, head, if cfg.skip(items[0], q, c) then [] else [items[0]]);
      hide ItemOf, IsItem;
      TogetherStand(log, q, head, if cfg.skip(items[0], q, c) then [] else [items[0]],
        rest, Meant(cfg, items[1..], q, c));
    }
  }

  lemma {:induction false} SliceEnumerates(cfg: Config, log: Log, q: int, c: int, lo: nat, hi: nat)
      returns (at: seq<Pos>)
    requires hi <= |log| < TWO_64
    ensures Enumerates(cfg, log, q, c, lo, hi, at, Slice(cfg, log, q, c, lo, hi))
    decreases hi
  {
    if lo >= hi {
      at := [];
    } else {
      var front := SliceEnumerates(cfg, log, q, c, lo, hi - 1);
      var all := ItemsOfInstance(log, q, hi - 1);
      hide ItemsAt;
      var some := MeantStand(cfg, log, q, c, all, ItemsAt(log[hi - 1], q, hi - 1));
      at := front + some;
      var a, b := Slice(cfg, log, q, c, lo, hi - 1), Meant(cfg, ItemsAt(log[hi - 1], q, hi - 1), q, c);
      assert Slice(cfg, log, q, c, lo, hi) == a + b;
      hide Slice, Meant, ItemOf;
      TogetherStand(log, q, front, a, some, b);
      assert forall p :: p in at <==> p in front || p in some;
    }
  }

  /** A slice is what it should be. */
  lemma SliceDelivers(cfg: Config, log: Log, q: int, c: int, lo: nat, hi: nat)
    requires hi <= |log| < TWO_64
    ensures Delivers(cfg, log, q, c, lo, hi, Slice(cfg, log, q, c, lo, hi))
  {
    var at := SliceEnumerates(cfg, log, q, c, lo, hi);
  }
}
