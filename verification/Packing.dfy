/** Packing items into add requests under a count and a byte limit
    (phxqueue/producer/producer.cpp:212-300). */
module Packing {
  import opened Options

  /** `batch` is a C++ int and may be zero or negative; `bytes` is a size_t. */
  datatype Limits = Limits(batch: int, bytes: nat)

  datatype Item = Item(id: int, size: nat)

  type Request = seq<Item>

  datatype Packed = Requests(reqs: seq<Request>) | TooLarge

  function Bytes(items: seq<Item>): nat {
    if items == [] then 0 else Bytes(items[..|items| - 1]) + items[|items| - 1].size
  }

  predicate Overflows(cur: Request, item: Item, l: Limits) { |cur| + 1 > l.batch || Bytes(cur) + item.size > l.bytes }

  /** What the loop makes of the rest of a list when `cur` is under construction: it closes `cur` as soon
      as the next item does not fit, and takes that item into a new request without looking at its size. */
  function Pack(cur: Request, items: seq<Item>, l: Limits): Packed
    decreases |items|
  {
    if items == [] then Requests(if cur == [] then [] else [cur])
    else if !Overflows(cur, items[0], l) then Pack(cur + [items[0]], items[1..], l)
    else if cur == [] then TooLarge
    else
      match Pack([items[0]], items[1..], l)
      case TooLarge => TooLarge
      case Requests(reqs) => Requests([cur] + reqs)
  }

  function Concat<T>(parts: seq<seq<T>>): seq<T> { if parts == [] then [] else parts[0] + Concat(parts[1..]) }

  predicate Fits(r: Request, l: Limits) { |r| <= l.batch && Bytes(r) <= l.bytes }

  /** A request is within the limits, or one item that does not fit at all. */
  predicate Allowed(r: Request, l: Limits) { 1 <= |r| <= l.batch && (Bytes(r) <= l.bytes || |r| == 1) }

  lemma {:induction false} PackConserves(cur: Request, items: seq<Item>, l: Limits)
    requires cur == [] || Allowed(cur, l)
    ensures var p := Pack(cur, items, l);
      p.Requests? ==> Concat(p.reqs) == cur + items && forall k :: 0 <= k < |p.reqs| ==> Allowed(p.reqs[k], l)
    decreases |items|
  {
    if items == [] {
      if cur != [] { assert Concat([cur]) == cur + Concat([]); }
    } else {
      var x, rest := items[0], items[1..];
      assert cur + [x] + rest == cur + items;
      if !Overflows(cur, x, l) {
        assert (cur + [x])[..|cur|] == cur;
        PackConserves(cur + [x], rest, l);
      } else if cur != [] {
        PackConserves([x], rest, l);
        var p := Pack([x], rest, l);
        if p.Requests? {
          assert Concat([cur] + p.reqs) == cur + Concat(p.reqs) by { assert ([cur] + p.reqs)[1..] == p.reqs; }
        }
      }
    }
  }

  /** Packing fails exactly when the first item already breaks a limit. */
  lemma {:induction false} PackFailsOnFirst(cur: Request, items: seq<Item>, l: Limits)
    ensures Pack(cur, items, l).TooLarge? <==> cur == [] && items != [] && Overflows([], items[0], l)
    decreases |items|
  {
    if items != [] {
      if !Overflows(cur, items[0], l) {
        PackFailsOnFirst(cur + [items[0]], items[1..], l);
      } else if cur != [] {
        PackFailsOnFirst([items[0]], items[1..], l);
      }
    }
  }

  /** An oversized item that comes second goes alone; the same items in the other order fail. */
  lemma OversizedSecondGoesAlone(small: Item, big: Item, l: Limits)
    requires 1 <= l.batch && small.size <= l.bytes < big.size
    ensures Pack([], [small, big], l) == Requests([[small], [big]])
    ensures Pack([], [big, small], l) == TooLarge
  {
    assert Bytes([]) == 0 && Bytes([small]) == small.size;
    assert [small, big][1..] == [big] && [big][1..] == [];
    assert Pack([big], [], l) == Requests([[big]]);
    assert Pack([small], [big], l) == Requests([[small], [big]]);
    assert [] + [small] == [small];
  }

  // ---------------------------------------------------------------- no split is shorter

  function Count(cur: Request, items: seq<Item>, l: Limits): nat {
    var p := Pack(cur, items, l);
    if p.Requests? then |p.reqs| else 0
  }

  predicate SuffixOf(a: Request, b: Request) { |a| <= |b| && a == b[|b| - |a|..] }

  lemma {:induction false} SuffixIsSmaller(a: Request, b: Request)
    requires SuffixOf(a, b)
    ensures |a| <= |b| && Bytes(a) <= Bytes(b)
    decreases |b|
  {
    if a != [] { SuffixIsSmaller(a[..|a| - 1], b[..|b| - 1]); }
  }

  lemma SuffixGrows(a: Request, b: Request, x: Item)
    requires SuffixOf(a, b)
    ensures SuffixOf(a + [x], b + [x]) && SuffixOf([x], b + [x])
  {
  }

  lemma CountStep(cur: Request, items: seq<Item>, l: Limits)
    requires items != [] && (cur != [] || !Overflows([], items[0], l))
    ensures Count(cur, items, l) == if Overflows(cur, items[0], l)
      then 1 + Count([items[0]], items[1..], l) else Count(cur + [items[0]], items[1..], l)
  {
    PackFailsOnFirst([items[0]], items[1..], l);
    PackFailsOnFirst(cur + [items[0]], items[1..], l);
  }

  /** Starting with less under construction never costs more requests, and starting with more costs at
      most one more. */
  lemma {:induction false} CountIsMonotone(a: Request, b: Request, items: seq<Item>, l: Limits)
    requires SuffixOf(a, b) && (a != [] || items == [] || !Overflows([], items[0], l))
    ensures Count(a, items, l) <= Count(b, items, l) <= 1 + Count(a, items, l)
    decreases |items|
  {
    if items != [] {
      var x, rest := items[0], items[1..];
      SuffixIsSmaller(a, b);
      SuffixGrows(a, b, x);
      SuffixGrows(b, b, x);
      assert b == [] ==> a == [];
      CountStep(a, items, l);
      CountStep(b, items, l);
      hide Count, Bytes, SuffixOf;
      if !Overflows(b, x, l) {
        CountIsMonotone(a + [x], b + [x], rest, l);
      } else if !Overflows(a, x, l) {
        SuffixGrows(a, a, x) by { SuffixOfItself(a); }
        CountIsMonotone([x], a + [x], rest, l);
      }
    }
  }

  lemma SuffixOfItself(a: Request)
    ensures SuffixOf(a, a)
  {
  }

  lemma {:induction false} BytesOfPrefix(a: Request, b: seq<Item>)
    ensures Bytes(a + b) == Bytes(a) + Bytes(b)
    decreases |b|
  {
    if b == [] {
      assert a + b == a;
    } else {
      assert (a + b)[..|a + b| - 1] == a + b[..|b| - 1];
      BytesOfPrefix(a, b[..|b| - 1]);
    }
  }

  /** Items that fit together behind `cur` all go into `cur`. */
  lemma {:induction false} FittingItemsJoin(cur: Request, piece: seq<Item>, rest: seq<Item>, l: Limits)
    requires Fits(cur + piece, l)
    ensures Count(cur, piece + rest, l) == Count(cur + piece, rest, l)
    decreases |piece|
  {
    if piece == [] {
      assert cur + piece == cur && piece + rest == rest;
    } else {
      var x := piece[0];
      assert cur + piece == cur + [x] + piece[1..] && (piece + rest)[1..] == piece[1..] + rest;
      BytesOfPrefix(cur + [x], piece[1..]);
      BytesOfPrefix(cur, [x]);
      assert !Overflows(cur, x, l);
      FittingItemsJoin(cur + [x], piece[1..], rest, l);
    }
  }

  /** No way of splitting the items, in order, into requests within the limits uses fewer requests. */
  lemma {:induction false} PackingIsMinimal(split: seq<Request>, l: Limits)
    requires forall k :: 0 <= k < |split| ==> Fits(split[k], l)
    ensures Pack([], Concat(split), l).Requests? && Count([], Concat(split), l) <= |split|
    decreases |split|
  {
    if split != [] {
      var first, rest := split[0], Concat(split[1..]);
      PackingIsMinimal(split[1..], l);
      assert [] + first == first;
      FittingItemsJoin([], first, rest, l);
      PackFailsOnFirst([], rest, l);
      assert SuffixOf([], first);
      CountIsMonotone([], first, rest, l);
      FirstFits(first, rest, l);
    }
  }

  lemma FirstFits(first: Request, rest: seq<Item>, l: Limits)
    requires Fits(first, l) && Pack([], rest, l).Requests?
    ensures Pack([], first + rest, l).Requests?
  {
    PackFailsOnFirst([], first + rest, l);
    PackFailsOnFirst([], rest, l);
    if first != [] {
      BytesOfPrefix([first[0]], first[1..]);
      assert [first[0]] + first[1..] == first;
      assert Bytes([first[0]]) == first[0].size;
    } else {
      assert first + rest == rest;
    }
  }

  // ---------------------------------------------------------------- the method

  /** `update` is item_update_func, `queueInfo` GetQueueInfoIDByCount; an item without a queue info is
      dropped. */
  datatype Rules = Rules(update: Item -> Item, queueInfo: Item -> Option<int>, limits: Limits)

  function Accepted(x: Option<Item>, key: int, r: Rules): seq<Item> {
    if x.Some? && r.queueInfo(r.update(x.value)) == Some(key) then [r.update(x.value)] else []
  }

  /** The accepted items of one queue info, in the order given. */
  function ForKey(items: seq<Option<Item>>, key: int, r: Rules): seq<Item> {
    if items == [] then [] else ForKey(items[..|items| - 1], key, r) + Accepted(items[|items| - 1], key, r)
  }

  ghost predicate Ascending(keys: seq<int>) { forall i, j :: 0 <= i < j < |keys| ==> keys[i] < keys[j] }

  /** The requests of the queue infos in turn, until one of them fails. */
  function PackKeys(keys: seq<int>, items: seq<Option<Item>>, r: Rules): (bool, seq<Request>) {
    if keys == [] then (true, [])
    else
      match Pack([], ForKey(items, keys[0], r), r.limits)
      case TooLarge => (false, [])
      case Requests(reqs) => var (ok, more) := PackKeys(keys[1..], items, r); (ok, reqs + more)
  }

  function Join(closed: seq<Request>, p: Packed): Packed { if p.TooLarge? then TooLarge else Requests(closed + p.reqs) }

  method InsertKey(keys: seq<int>, key: int) returns (more: seq<int>)
    requires Ascending(keys)
    ensures Ascending(more) && forall k :: k in more <==> k in keys || k == key
  {
    var i := 0;
    while i < |keys| && keys[i] < key
      invariant 0 <= i <= |keys| && forall j :: 0 <= j < i ==> keys[j] < key
    {
      i := i + 1;
    }
    if i < |keys| && keys[i] == key { return keys; }
    more := keys[..i] + [key] + keys[i..];
    assert keys == keys[..i] + keys[i..];
  }

  lemma OneMoreItem(items: seq<Option<Item>>, i: nat, key: int, r: Rules)
    requires i < |items|
    ensures ForKey(items[..i + 1], key, r) == ForKey(items[..i], key, r) + Accepted(items[i], key, r)
  {
    assert items[..i + 1][..i] == items[..i];
  }

  /** Every queue info that has accepted items is a key, with exactly those items. */
  ghost predicate Grouped(items: seq<Option<Item>>, keys: seq<int>, groups: map<int, seq<Item>>, r: Rules) {
    && Ascending(keys) && (forall k :: k in keys <==> k in groups)
    && (forall k :: k in groups ==> groups[k] != [] && groups[k] == ForKey(items, k, r))
    && (forall k :: k !in groups ==> ForKey(items, k, r) == [])
  }

  lemma SkipKeeps(items: seq<Option<Item>>, i: nat, keys: seq<int>, groups: map<int, seq<Item>>, r: Rules)
    requires i < |items| && Grouped(items[..i], keys, groups, r) && forall k :: Accepted(items[i], k, r) == []
    ensures Grouped(items[..i + 1], keys, groups, r)
  {
    hide ForKey;
    var next := i + 1;
    forall k ensures ForKey(items[..next], k, r) == ForKey(items[..i], k, r) { OneMoreItem(items, i, k, r); }
  }

  lemma PutKeeps(items: seq<Option<Item>>, i: nat, keys: seq<int>, more: seq<int>, groups: map<int, seq<Item>>,
      key: int, r: Rules)
    requires i < |items| && Grouped(items[..i], keys, groups, r)
    requires Accepted(items[i], key, r) != [] && forall k :: k != key ==> Accepted(items[i], k, r) == []
    requires Ascending(more) && forall k :: k in more <==> k in keys || k == key
    ensures var had := if key in groups then groups[key] else [];
      Grouped(items[..i + 1], more, groups[key := had + Accepted(items[i], key, r)], r)
  {
    hide ForKey, Ascending, Accepted;
    var next := i + 1;
    forall k
      ensures ForKey(items[..next], k, r) == ForKey(items[..i], k, r) + Accepted(items[i], k, r)
    {
      OneMoreItem(items, i, k, r);
    }
  }

  lemma NothingGrouped(items: seq<Option<Item>>, r: Rules)
    ensures Grouped(items[..0], [], map[], r)
  {
  }

  lemma GroupedParts(items: seq<Option<Item>>, keys: seq<int>, groups: map<int, seq<Item>>, r: Rules)
    requires Grouped(items, keys, groups, r)
    ensures Ascending(keys) && forall k :: k in keys <==> k in groups
  {
    hide ForKey;
  }

  /** An item is accepted for one queue info at most. */
  lemma AcceptedOnce(x: Option<Item>, r: Rules)
    ensures if x.Some? && r.queueInfo(r.update(x.value)).Some?
            then Accepted(x, r.queueInfo(r.update(x.value)).value, r) == [r.update(x.value)]
              && forall k :: k != r.queueInfo(r.update(x.value)).value ==> Accepted(x, k, r) == []
            else forall k :: Accepted(x, k, r) == []
  {
  }

  method GroupItems(items: seq<Option<Item>>, r: Rules) returns (keys: seq<int>, groups: map<int, seq<Item>>)
    ensures Grouped(items, keys, groups, r)
  {
    keys, groups := [], map[];
    var i := 0;
    NothingGrouped(items, r);
    hide Grouped, ForKey, Ascending, Accepted;
    while i < |items|
      invariant 0 <= i <= |items| && Grouped(items[..i], keys, groups, r)
    {
      ghost var before := keys;
      GroupedParts(items[..i], keys, groups, r);
      AcceptedOnce(items[i], r);
      if items[i].Some? && r.queueInfo(r.update(items[i].value)).Some? {
        var item := r.update(items[i].value);
        var key := r.queueInfo(item).value;
        var had := if key in groups then groups[key] else [];
        keys := InsertKey(keys, key);
        PutKeeps(items, i, before, keys, groups, key, r);
        groups := groups[key := had + [item]];
      } else {
        SkipKeeps(items, i, keys, groups, r);
      }
      i := i + 1;
    }
    assert items[..i] == items;
  }

  /** One round of the packing loop. */
  lemma PackStep(reqs: seq<Request>, req: Request, items: seq<Item>, i: nat, l: Limits)
    requires i < |items|
    ensures Bytes(req + [items[i]]) == Bytes(req) + items[i].size
    ensures Join(reqs, Pack(req, items[i..], l)) ==
      if !Overflows(req, items[i], l) then Join(reqs, Pack(req + [items[i]], items[i + 1..], l))
      else if req == [] then TooLarge
      else Join(reqs + [req], Pack([items[i]], items[i + 1..], l))
  {
    assert items[i..][0] == items[i] && items[i..][1..] == items[i + 1..];
    assert (req + [items[i]])[..|req|] == req;
    var rest := Pack([items[i]], items[i + 1..], l);
    assert rest.Requests? ==> reqs + ([req] + rest.reqs) == reqs + [req] + rest.reqs;
  }

  lemma PackEnds(reqs: seq<Request>, req: Request, l: Limits)
    ensures Join(reqs, Pack(req, [], l)) == Requests(if req == [] then reqs else reqs + [req])
  {
    assert reqs + [] == reqs;
  }

  method PackGroup(items: seq<Item>, l: Limits) returns (ok: bool, reqs: seq<Request>)
    ensures Pack([], items, l) == if ok then Requests(reqs) else TooLarge
    ensures !ok ==> reqs == []
  {
    reqs := [];
    var req: Request := [];
    var batch: int := 0;
    var byteSize: nat := 0;
    var i := 0;
    assert items[0..] == items;
    hide Pack;
    while i < |items|
      invariant 0 <= i <= |items| && batch == |req| && byteSize == Bytes(req)
      invariant Join(reqs, Pack(req, items[i..], l)) == Pack([], items, l)
    {
      hide Bytes;
      var item := items[i];
      PackStep(reqs, req, items, i, l);
      if batch + 1 > l.batch || byteSize + item.size > l.bytes {
        if |req| == 0 { return false, []; }
        PackStep([], [], [item], 0, l);
        reqs := reqs + [req];
        req := [];
        batch, byteSize := 0, 0;
      }
      batch := batch + 1;
      byteSize := byteSize + item.size;
      req := req + [item];
      i := i + 1;
    }
    assert items[i..] == [];
    PackEnds(reqs, req, l);
    if |req| > 0 { reqs := reqs + [req]; }
    return true, reqs;
  }

  /** The queue infos that accept some item, in the order of the map that groups the items. */
  ghost predicate AreKeys(keys: seq<int>, items: seq<Option<Item>>, r: Rules) {
    Ascending(keys) && forall k :: k in keys <==> ForKey(items, k, r) != []
  }

  /** The requests for all accepted items, queue info by queue info; false when some list starts with an
      item that breaks a limit, and then what was made before is left in place. */
  method MakeAddRequests(items: seq<Option<Item>>, r: Rules) returns (ok: bool, reqs: seq<Request>)
    ensures exists keys :: AreKeys(keys, items, r) && (ok, reqs) == PackKeys(keys, items, r)
  {
    var order, groups := GroupItems(items, r);
    assert AreKeys(order, items, r);
    hide ForKey, Ascending, Pack, AreKeys;
    ok, reqs := true, [];
    var i := 0;
    assert order[0..] == order;
    assert [] + PackKeys(order, items, r).1 == PackKeys(order, items, r).1;
    while i < |order|
      invariant 0 <= i <= |order| && ok
      invariant var (more, rest) := PackKeys(order[i..], items, r); PackKeys(order, items, r) == (more, reqs + rest)
    {
      assert order[i..][0] == order[i] && order[i..][1..] == order[i + 1..];
      assert order[i] in order;
      var packed, some := PackGroup(groups[order[i]], r.limits);
      assert reqs + [] == reqs;
      if !packed { return false, reqs; }
      ghost var (more, rest) := PackKeys(order[i + 1..], items, r);
      assert reqs + (some + rest) == reqs + some + rest;
      reqs := reqs + some;
      i := i + 1;
    }
    assert order[i..] == [];
    assert reqs + [] == reqs;
  }

  // ---------------------------------------------------------------- the whole result

  /** The item given at `i` goes to queue info `key`. */
  predicate GoesTo(items: seq<Option<Item>>, i: nat, key: int, r: Rules) {
    i < |items| && items[i].Some? && r.queueInfo(r.update(items[i].value)) == Some(key)
  }

  /** The list of a queue info holds the updated items that go to it, once each and in the order given. */
  lemma {:induction false} ForKeyEnumerates(items: seq<Option<Item>>, key: int, r: Rules) returns (at: seq<nat>)
    ensures var list := ForKey(items, key, r);
      && |at| == |list|
      && (forall i :: 0 <= i < |at| ==> GoesTo(items, at[i], key, r) && list[i] == r.update(items[at[i]].value))
    ensures forall i, j :: 0 <= i < j < |at| ==> at[i] < at[j]
    ensures forall i :: GoesTo(items, i, key, r) ==> i in at
    decreases |items|
  {
    if items == [] {
      at := [];
    } else {
      var n, front := |items| - 1, items[..|items| - 1];
      at := ForKeyEnumerates(front, key, r);
      forall i: nat | i < n ensures GoesTo(front, i, key, r) <==> GoesTo(items, i, key, r) {}
      hide ForKey;
      ForKeyStep(items, key, r);
      if GoesTo(items, n, key, r) { at := at + [n]; }
    }
  }

  lemma ForKeyStep(items: seq<Option<Item>>, key: int, r: Rules)
    requires items != []
    ensures var n := |items| - 1;
      ForKey(items, key, r) ==
        ForKey(items[..n], key, r) + if GoesTo(items, n, key, r) then [r.update(items[n].value)] else []
  {
  }

  /** Packing fails if and only if some queue info's first item breaks a limit by itself. */
  lemma {:induction false} FailsOnSomeFirst(keys: seq<int>, items: seq<Option<Item>>, r: Rules)
    requires forall k :: k in keys ==> ForKey(items, k, r) != []
    ensures PackKeys(keys, items, r).0 <==>
      forall k :: k in keys ==> r.limits.batch >= 1 && ForKey(items, k, r)[0].size <= r.limits.bytes
    decreases |keys|
  {
    if keys != [] {
      PackFailsOnFirst([], ForKey(items, keys[0], r), r.limits);
      FailsOnSomeFirst(keys[1..], items, r);
      AllStart(keys, items, r);
      hide ForKey, Pack;
      assert Bytes([]) == 0;
    }
  }

  lemma AllStart(keys: seq<int>, items: seq<Option<Item>>, r: Rules)
    requires keys != [] && forall k :: k in keys ==> ForKey(items, k, r) != []
    ensures (forall k :: k in keys ==> r.limits.batch >= 1 && ForKey(items, k, r)[0].size <= r.limits.bytes) <==>
      (&& r.limits.batch >= 1 && ForKey(items, keys[0], r)[0].size <= r.limits.bytes
       && forall k :: k in keys[1..] ==> r.limits.batch >= 1 && ForKey(items, k, r)[0].size <= r.limits.bytes)
  {
    hide ForKey;
    assert forall k :: k in keys[1..] ==> k in keys;
    assert forall k :: k in keys ==> k == keys[0] || k in keys[1..];
  }

  function AllForKeys(keys: seq<int>, items: seq<Option<Item>>, r: Rules): seq<Item> {
    if keys == [] then [] else ForKey(items, keys[0], r) + AllForKeys(keys[1..], items, r)
  }

  lemma {:induction false} ConcatJoins<T>(a: seq<seq<T>>, b: seq<seq<T>>)
    ensures Concat(a + b) == Concat(a) + Concat(b)
    decreases |a|
  {
    if a == [] {
      assert a + b == b;
    } else {
      assert (a + b)[1..] == a[1..] + b;
      ConcatJoins(a[1..], b);
    }
  }

  ghost predicate IsPiece<T>(whole: seq<T>, lo: nat, hi: nat, part: seq<T>) {
    lo <= hi <= |whole| && part == whole[lo..hi]
  }

  /** `parts` are the pieces of `whole` between the cuts. */
  ghost predicate IsCut<T>(whole: seq<T>, cuts: seq<nat>, parts: seq<seq<T>>) {
    && |cuts| == |parts| + 1 && cuts[0] == 0 && cuts[|parts|] == |whole|
    && forall k :: 0 <= k < |parts| ==> IsPiece(whole, cuts[k], cuts[k + 1], parts[k])
  }

  lemma PieceOfFront<T>(front: seq<T>, more: seq<T>, lo: nat, hi: nat, part: seq<T>)
    requires IsPiece(front, lo, hi, part)
    ensures IsPiece(front + more, lo, hi, part)
  {
  }

  lemma {:induction false} ConcatIsCut<T>(parts: seq<seq<T>>) returns (cuts: seq<nat>)
    ensures IsCut(Concat(parts), cuts, parts)
    decreases |parts|
  {
    if parts == [] {
      cuts := [0];
    } else {
      var n, last := |parts| - 1, parts[|parts| - 1];
      var some := ConcatIsCut(parts[..n]);
      var front := Concat(parts[..n]);
      cuts := some + [|front + last|];
      LastJoins(parts);
      forall k | 0 <= k < |parts| ensures IsPiece(front + last, cuts[k], cuts[k + 1], parts[k]) {
        if k < n { PieceOfFront(front, last, some[k], some[k + 1], parts[..n][k]); }
      }
    }
  }

  lemma LastJoins<T>(parts: seq<seq<T>>)
    requires parts != []
    ensures var n := |parts| - 1; Concat(parts) == Concat(parts[..n]) + parts[n]
  {
    var n := |parts| - 1;
    assert parts[..n] + [parts[n]] == parts;
    ConcatJoins(parts[..n], [parts[n]]);
    assert [parts[n]][1..] == [] && parts[n] + [] == parts[n];
  }

  /** The next request starts with an item that `a` had no room for. */
  predicate NoRoom(a: Request, b: Request, l: Limits) {
    b != [] && (|a| + 1 > l.batch || Bytes(a) + b[0].size > l.bytes)
  }

  lemma {:induction false} PackIsGreedy(cur: Request, items: seq<Item>, l: Limits)
    requires Pack(cur, items, l).Requests?
    ensures var reqs := Pack(cur, items, l).reqs;
      && (forall k :: 0 <= k < |reqs| - 1 ==> NoRoom(reqs[k], reqs[k + 1], l))
      && (cur != [] ==> reqs != [] && cur <= reqs[0])
    decreases |items|
  {
    if items != [] {
      if !Overflows(cur, items[0], l) {
        PackIsGreedy(cur + [items[0]], items[1..], l);
      } else {
        PackIsGreedy([items[0]], items[1..], l);
      }
    }
  }

  /** What packing a list makes of it: its pieces in order, each within the limits or one oversized item, and
      each ended only because the next item had no room. */
  lemma PackCutsGreedily(items: seq<Item>, l: Limits) returns (cuts: seq<nat>)
    requires Pack([], items, l).Requests?
    ensures var reqs := Pack([], items, l).reqs;
      && IsCut(items, cuts, reqs)
      && (forall k :: 0 <= k < |reqs| ==> 1 <= |reqs[k]| <= l.batch && (Bytes(reqs[k]) <= l.bytes || |reqs[k]| == 1))
      && forall k :: 0 <= k < |reqs| - 1 ==> NoRoom(reqs[k], reqs[k + 1], l)
  {
    PackConserves([], items, l);
    PackIsGreedy([], items, l);
    cuts := ConcatIsCut(Pack([], items, l).reqs);
  }

  /** The whole result is those of the queue infos, one after the other. */
  lemma ResultIsByQueueInfo(keys: seq<int>, items: seq<Option<Item>>, r: Rules)
      returns (parts: seq<seq<Request>>, cuts: seq<nat>)
    ensures var (ok, reqs) := PackKeys(keys, items, r);
      && |parts| <= |keys| && (ok <==> |parts| == |keys|) && IsCut(reqs, cuts, parts)
      && (forall k :: 0 <= k < |parts| ==> Pack([], ForKey(items, keys[k], r), r.limits) == Requests(parts[k]))
      && (!ok ==> Pack([], ForKey(items, keys[|parts|], r), r.limits) == TooLarge)
  {
    parts := PartsByQueueInfo(keys, items, r);
    cuts := ConcatIsCut(parts);
  }

  lemma {:induction false} PartsByQueueInfo(keys: seq<int>, items: seq<Option<Item>>, r: Rules)
      returns (parts: seq<seq<Request>>)
    ensures var (ok, reqs) := PackKeys(keys, items, r);
      && |parts| <= |keys| && (ok <==> |parts| == |keys|) && Concat(parts) == reqs
      && (forall k :: 0 <= k < |parts| ==> Pack([], ForKey(items, keys[k], r), r.limits) == Requests(parts[k]))
      && (!ok ==> Pack([], ForKey(items, keys[|parts|], r), r.limits) == TooLarge)
    decreases |keys|
  {
    hide Pack, ForKey;
    if keys == [] || Pack([], ForKey(items, keys[0], r), r.limits).TooLarge? {
      parts := [];
    } else {
      var rest := PartsByQueueInfo(keys[1..], items, r);
      parts := [Pack([], ForKey(items, keys[0], r), r.limits).reqs] + rest;
      assert parts[1..] == rest;
      forall k | 0 <= k < |parts| ensures Pack([], ForKey(items, keys[k], r), r.limits) == Requests(parts[k]) {
        if k > 0 { assert keys[k] == keys[1..][k - 1] && parts[k] == rest[k - 1]; }
      }
    }
  }

  /** Every accepted item is in exactly one request, in its queue info's order; every request is within
      the limits or holds one oversized item. */
  lemma {:induction false} EveryItemPackedOnce(keys: seq<int>, items: seq<Option<Item>>, r: Rules)
    ensures var (ok, reqs) := PackKeys(keys, items, r);
      ok ==> Concat(reqs) == AllForKeys(keys, items, r) && forall k :: 0 <= k < |reqs| ==> Allowed(reqs[k], r.limits)
    decreases |keys|
  {
    if keys != [] {
      var list := ForKey(items, keys[0], r);
      var p := Pack([], list, r.limits);
      PackConserves([], list, r.limits);
      if p.Requests? {
        assert [] + list == list;
        EveryItemPackedOnce(keys[1..], items, r);
        ConcatJoins(p.reqs, PackKeys(keys[1..], items, r).1);
      }
    }
  }
}
