/** Consumer cursors: a (prev, next) pair per consumer group and queue, kept in a memory-mapped
    buffer (phxqueue/store/syncctrl.cpp). */
module SyncCtrls {
  import opened CursorId
  import opened Numbers
  import opened Options
  import opened StoreLog

  /** A cursor counts as stored only when its magic is in place. */
  datatype CursorItem = CursorItem(prevMagic: bool, prev: u64, nextMagic: bool, next: u64)

  const BLANK := CursorItem(false, 0, false, 0)

  datatype RetCode = Ok | CursorNotFound | ErrArg

  datatype Cursors = Cursors(prev: u64, next: u64)

  type View = map<(int, int), CursorItem>

  predicate InRange(n: nat, nq: nat, c: int, q: int) { 1 <= c <= n && 0 <= q < nq }

  // ---------------------------------------------------------------- one item

  /** AdjustNextCursorID: where a Get starts. None is RET_ERR_CURSOR_NOT_FOUND. */
  function Adjust(item: CursorItem, cli: Cursors): Option<Cursors> {
    var mismatch := !item.nextMagic || item.next != cli.next || (cli.prev != NO_CURSOR && cli.prev > cli.next);
    if mismatch && !item.prevMagic then None
    else
      var cur := if mismatch then Cursors(item.prev, item.prev) else cli;
      if item.prevMagic && (cur.prev == NO_CURSOR || item.prev > cur.prev) then Some(cur.(prev := item.prev))
      else Some(cur)
  }

  function SetPrev(item: CursorItem, p: u64): CursorItem { item.(prevMagic := true, prev := p) }
  function SetNext(item: CursorItem, p: u64): CursorItem { item.(nextMagic := true, next := p) }

  /** One detail of SyncCursorID. */
  function SyncItem(item: CursorItem, p: u64): CursorItem {
    if item.prevMagic && item.prev >= p then item else SetNext(SetPrev(item, p), p)
  }

  // ---------------------------------------------------------------- a whole sync value

  /** All groups of a detail have a pair for the queue. */
  predicate AllKnown(keys: set<(int, int)>, q: int, groups: seq<GroupDetail>) {
    forall k :: 0 <= k < |groups| ==> (groups[k].groupId, q) in keys
  }

  /** An unknown group ends the sync value. */
  function SyncGroups(view: View, q: int, groups: seq<GroupDetail>): (r: View)
    ensures r.Keys == view.Keys
  {
    if groups == [] then view
    else
      var key := (groups[0].groupId, q);
      if key !in view then view else SyncGroups(view[key := SyncItem(view[key], groups[0].prev)], q, groups[1..])
  }

  function Sync(view: View, info: SyncCtrlInfo): (r: View)
    ensures r.Keys == view.Keys
  {
    if info == [] then view
    else
      var v := SyncGroups(view, info[0].queueId, info[0].groups);
      if AllKnown(view.Keys, info[0].queueId, info[0].groups) then Sync(v, info[1..]) else v
  }

  predicate SyncKnown(keys: set<(int, int)>, info: SyncCtrlInfo) {
    forall k :: 0 <= k < |info| ==> AllKnown(keys, info[k].queueId, info[k].groups)
  }

  // ---------------------------------------------------------------- what a sync value does to a pair

  /** Of the prevs `s` the largest is taken over, into both cursors, if it is ahead of what is stored. */
  ghost predicate Takes(was: CursorItem, s: set<u64>, now: CursorItem) {
    if s == {} || (was.prevMagic && forall p :: p in s ==> p <= was.prev) then now == was
    else
      && now.prev in s && now == CursorItem(true, now.prev, true, now.prev) && (forall p :: p in s ==> p <= now.prev)
      && (was.prevMagic ==> was.prev < now.prev)
  }

  lemma TakesMore(a: CursorItem, s: set<u64>, b: CursorItem, t: set<u64>, c: CursorItem)
    requires Takes(a, s, b) && Takes(b, t, c)
    ensures Takes(a, s + t, c)
  {
  }

  /** The prevs that a detail lists for group `c`, and those that a sync value lists for the pair. */
  ghost function PrevsOf(groups: seq<GroupDetail>, c: int): set<u64> {
    set e | e in groups && e.groupId == c :: e.prev
  }

  ghost function Prevs(info: SyncCtrlInfo, c: int, q: int): set<u64> {
    set d, e | d in info && e in d.groups && d.queueId == q && e.groupId == c :: e.prev
  }

  lemma {:induction false} GroupsTake(view: View, q: int, groups: seq<GroupDetail>, c: int, p: int)
    requires AllKnown(view.Keys, q, groups) && (c, p) in view
    ensures Takes(view[(c, p)], if p == q then PrevsOf(groups, c) else {}, SyncGroups(view, q, groups)[(c, p)])
    decreases |groups|
  {
    if groups != [] {
      var e, rest := groups[0], groups[1..];
      var key := (e.groupId, q);
      assert key in view;
      var one := view[key := SyncItem(view[key], e.prev)];
      assert AllKnown(one.Keys, q, rest) by {
        forall k | 0 <= k < |rest|
          ensures (rest[k].groupId, q) in one.Keys
        {
          assert (groups[k + 1].groupId, q) in view.Keys;
        }
      }
      GroupsTake(one, q, rest, c, p);
      var here: set<u64> := if (c, p) == key then {e.prev} else {};
      assert Takes(view[(c, p)], here, one[(c, p)]);
      var more := if p == q then PrevsOf(rest, c) else {};
      TakesMore(view[(c, p)], here, one[(c, p)], more, SyncGroups(view, q, groups)[(c, p)]);
      assert groups == [e] + rest;
      assert p == q ==> here + more == PrevsOf(groups, c);
      assert p != q ==> here + more == {};
    } else {
      assert PrevsOf([], c) == {};
    }
  }

  /** A sync value without unknown groups: every pair takes the largest prev that the value lists for it, if that
      is ahead of the stored one, and is left alone otherwise. */
  lemma {:induction false} SyncTakesLargest(view: View, info: SyncCtrlInfo, c: int, q: int)
    requires SyncKnown(view.Keys, info) && (c, q) in view
    ensures Takes(view[(c, q)], Prevs(info, c, q), Sync(view, info)[(c, q)])
    decreases |info|
  {
    if info == [] {
      assert Prevs([], c, q) == {};
    } else {
      var d, rest := info[0], info[1..];
      assert AllKnown(view.Keys, d.queueId, d.groups);
      var one := SyncGroups(view, d.queueId, d.groups);
      GroupsTake(view, d.queueId, d.groups, c, q);
      assert SyncKnown(one.Keys, rest) by {
        forall k | 0 <= k < |rest| ensures AllKnown(one.Keys, rest[k].queueId, rest[k].groups) {
          assert rest[k] == info[k + 1] && AllKnown(view.Keys, info[k + 1].queueId, info[k + 1].groups);
        }
      }
      SyncTakesLargest(one, rest, c, q);
      var here := if q == d.queueId then PrevsOf(d.groups, c) else {};
      assert Sync(view, info) == Sync(one, rest);
      hide Sync, SyncGroups, SyncKnown, AllKnown;
      TakesMore(view[(c, q)], here, one[(c, q)], Prevs(rest, c, q), Sync(one, rest)[(c, q)]);
      assert info == [d] + rest;
      assert here + Prevs(rest, c, q) == Prevs(info, c, q);
    }
  }

  /** An unknown group ends the value where it stands: what comes after it does nothing. */
  lemma {:induction false} UnknownGroupEnds(view: View, q: int, groups: seq<GroupDetail>, k: nat)
    requires k < |groups| && (groups[k].groupId, q) !in view
    ensures SyncGroups(view, q, groups) == SyncGroups(view, q, groups[..k])
    decreases |groups|
  {
    if k > 0 && (groups[0].groupId, q) in view {
      var one := view[(groups[0].groupId, q) := SyncItem(view[(groups[0].groupId, q)], groups[0].prev)];
      UnknownGroupEnds(one, q, groups[1..], k - 1);
      assert groups[1..][..k - 1] == groups[..k][1..];
    }
  }

  lemma {:induction false} UnknownDetailEnds(view: View, info: SyncCtrlInfo, k: nat)
    requires k < |info| && !AllKnown(view.Keys, info[k].queueId, info[k].groups)
    ensures Sync(view, info) == Sync(view, info[..k + 1])
    decreases |info|
  {
    hide SyncGroups, AllKnown;
    if AllKnown(view.Keys, info[0].queueId, info[0].groups) {
      UnknownDetailEnds(SyncGroups(view, info[0].queueId, info[0].groups), info[1..], k - 1);
      assert info[1..][..k] == info[..k + 1][1..];
    }
  }

  /** Negative ids index outside the buffer, and the meta queue of an unknown queue is not there to be marked. */
  predicate Addressable(nq: nat, info: SyncCtrlInfo) {
    forall k :: 0 <= k < |info| ==> AddressableDetail(nq, info[k])
  }

  predicate AddressableDetail(nq: nat, d: QueueDetail) {
    0 <= d.queueId && (forall e :: e in d.groups ==> 0 <= e.groupId) && (d.groups == [] ==> d.queueId < nq)
  }

  // ---------------------------------------------------------------- the class

  lemma IdxInBounds(n: nat, nq: nat, c: int, q: int)
    requires InRange(n, nq, c, q)
    ensures 0 <= q * n + c - 1 < n * nq
  {
    assert (q + 1) * n <= nq * n;
  }

  lemma IdxInjective(n: nat, nq: nat, c: int, q: int, d: int, p: int)
    requires InRange(n, nq, c, q) && InRange(n, nq, d, p)
    requires q * n + c == p * n + d
    ensures c == d && q == p
  {
    if q < p { MulAtLeast(p - q, n); }
    if p < q { MulAtLeast(q - p, n); }
  }

  class SyncCtrl {
    const nconsumerGroup: nat
    const nqueue: nat
    const buf: array<CursorItem>

    ghost predicate Valid() { buf.Length == nconsumerGroup * nqueue }

    function Idx(c: int, q: int): (i: nat)
      requires Valid() && InRange(nconsumerGroup, nqueue, c, q)
      ensures i < buf.Length
    {
      IdxInBounds(nconsumerGroup, nqueue, c, q);
      q * nconsumerGroup + c - 1
    }

    ghost function State(): (r: View)
      requires Valid()
      reads buf
    {
      map c, q | 1 <= c <= nconsumerGroup && 0 <= q < nqueue :: (c, q) := buf[Idx(c, q)]
    }

    constructor (nconsumerGroup: nat, nqueue: nat)
      ensures Valid() && fresh(buf)
      ensures this.nconsumerGroup == nconsumerGroup && this.nqueue == nqueue
      ensures forall k :: k in State() ==> State()[k] == BLANK
    {
      this.nconsumerGroup := nconsumerGroup;
      this.nqueue := nqueue;
      buf := new CursorItem[nconsumerGroup * nqueue](i => BLANK);
    }

    lemma OneUpdate(before: View, c: int, q: int, item: CursorItem, i: nat)
      requires Valid() && InRange(nconsumerGroup, nqueue, c, q) && i == Idx(c, q)
      requires before.Keys == State().Keys
      requires buf[i] == item
      requires forall k :: k in before && k != (c, q) ==>
        InRange(nconsumerGroup, nqueue, k.0, k.1) && before[k] == buf[Idx(k.0, k.1)]
      ensures State() == before[(c, q) := item]
    {
    }

    method AdjustNextCursorID(c: int, q: int, cli: Cursors) returns (ret: RetCode, cur: Cursors)
      requires Valid() && 0 <= c && 0 <= q
      ensures ret == ErrArg <==> !InRange(nconsumerGroup, nqueue, c, q)
      ensures ret != ErrArg ==> ret == (if Adjust(State()[(c, q)], cli).Some? then Ok else CursorNotFound)
      ensures ret == Ok ==> Some(cur) == Adjust(State()[(c, q)], cli)
      ensures ret != Ok ==> cur == cli
    {
      cur := cli;
      if c == 0 || c > nconsumerGroup || q >= nqueue { return ErrArg, cur; }
      assert (c, q) in State();
      var item := buf[Idx(c, q)];
      if !item.nextMagic || item.next != cur.next || (cur.prev != NO_CURSOR && cur.prev > cur.next) {
        if !item.prevMagic { return CursorNotFound, cur; }
        cur := Cursors(item.prev, item.prev);
      }
      if item.prevMagic && (cur.prev == NO_CURSOR || item.prev > cur.prev) {
        cur := cur.(prev := item.prev);
      }
      return Ok, cur;
    }

    method UpdateCursorID(c: int, q: int, cursor: u64, isPrev: bool) returns (ret: RetCode)
      requires Valid() && 0 <= c && 0 <= q
      modifies buf
      ensures ret == (if InRange(nconsumerGroup, nqueue, c, q) then Ok else ErrArg)
      ensures ret == ErrArg ==> State() == old(State())
      ensures ret == Ok ==>
        && (c, q) in old(State())
        && State() == old(State())[(c, q) :=
          if isPrev then SetPrev(old(State())[(c, q)], cursor) else SetNext(old(State())[(c, q)], cursor)]
        && var item, was := State()[(c, q)], old(State())[(c, q)];
           if isPrev then item == CursorItem(true, cursor, was.nextMagic, was.next)
           else item == CursorItem(was.prevMagic, was.prev, true, cursor)
    {
      if c == 0 || c > nconsumerGroup || q >= nqueue { return ErrArg; }
      ghost var before := State();
      var i := Idx(c, q);
      assert (c, q) in before && before[(c, q)] == buf[i];
      var item := if isPrev then SetPrev(buf[i], cursor) else SetNext(buf[i], cursor);
      buf[i] := item;
      forall k | k in before && k != (c, q)
        ensures InRange(nconsumerGroup, nqueue, k.0, k.1) && before[k] == buf[Idx(k.0, k.1)]
      {
        if Idx(k.0, k.1) == i { IdxInjective(nconsumerGroup, nqueue, c, q, k.0, k.1); }
      }
      OneUpdate(before, c, q, item, i);
      return Ok;
    }

    method GetCursorID(c: int, q: int, isPrev: bool) returns (ret: RetCode, cursor: u64)
      requires Valid() && 0 <= c && 0 <= q
      ensures ret == ErrArg <==> !InRange(nconsumerGroup, nqueue, c, q)
      ensures ret != ErrArg ==> (c, q) in State()
      ensures ret != ErrArg ==>
        ret == (if (if isPrev then State()[(c, q)].prevMagic else State()[(c, q)].nextMagic)
          then Ok else CursorNotFound)
      ensures ret == Ok ==> cursor == if isPrev then State()[(c, q)].prev else State()[(c, q)].next
      ensures ret != Ok ==> cursor == NO_CURSOR
    {
      cursor := NO_CURSOR;
      if c == 0 || c > nconsumerGroup || q >= nqueue { return ErrArg, cursor; }
      var item := buf[Idx(c, q)];
      assert (c, q) in State();
      if isPrev {
        if !item.prevMagic { return CursorNotFound, cursor; }
        return Ok, item.prev;
      } else {
        if !item.nextMagic { return CursorNotFound, cursor; }
        return Ok, item.next;
      }
    }

    /** One consumer group detail of SyncCursorID. */
    method SyncDetail(q: int, d: GroupDetail) returns (ok: bool)
      requires Valid() && 0 <= q && 0 <= d.groupId
      modifies buf
      ensures ok <==> (d.groupId, q) in old(State())
      ensures State() == if ok then old(State())[(d.groupId, q) := SyncItem(old(State())[(d.groupId, q)], d.prev)]
        else old(State())
      ensures ok ==> Takes(old(State())[(d.groupId, q)], {d.prev}, State()[(d.groupId, q)])
    {
      var r, cur := GetCursorID(d.groupId, q, true);
      if r == Ok && cur >= d.prev { return true; }
      r := UpdateCursorID(d.groupId, q, d.prev, true);
      if r != Ok { return false; }
      r := UpdateCursorID(d.groupId, q, d.prev, false);
      return r == Ok;
    }

    /** The cursor part of SyncCursorID for one queue, and the largest prev it carried, which
        BaseMgr hands to UpdateDequeueStat. */
    method SyncQueue(q: int, groups: seq<GroupDetail>) returns (ok: bool, maxPrev: u64)
      requires Valid() && 0 <= q && forall e :: e in groups ==> 0 <= e.groupId
      modifies buf
      ensures State() == SyncGroups(old(State()), q, groups)
      ensures ok <==> AllKnown(old(State()).Keys, q, groups)
      ensures ok ==> maxPrev == MaxPrev(NO_CURSOR, groups)
      ensures ok ==> IsLargest(groups, maxPrev)
    {
      MaxPrevIsLargest(groups);
      hide IsLargest;
      ghost var before := State();
      maxPrev := NO_CURSOR;
      var j := 0;
      hide State, SyncGroups, AllKnown, MaxPrev, SyncItem;
      NoneKnown(before.Keys, q, groups);
      while j < |groups|
        invariant 0 <= j <= |groups|
        invariant State().Keys == before.Keys && AllKnown(before.Keys, q, groups[..j])
        invariant SyncGroups(State(), q, groups[j..]) == SyncGroups(before, q, groups)
        invariant MaxPrev(maxPrev, groups[j..]) == MaxPrev(NO_CURSOR, groups)
      {
        var d := groups[j];
        GroupStep(State(), q, groups, j);
        KnownStep(before.Keys, q, groups, j);
        MaxPrevStep(maxPrev, groups, j);
        if maxPrev == NO_CURSOR || d.prev > maxPrev { maxPrev := d.prev; }
        var known := SyncDetail(q, d);
        if !known { return false, maxPrev; }
        j := j + 1;
      }
      assert groups[j..] == [] && groups[..j] == groups;
      NoGroups(State(), q, maxPrev);
      return true, maxPrev;
    }
  }

  /** `m` is the largest prev listed, the sentinel when none is; the sentinel itself is never stored. */
  ghost predicate IsLargest(groups: seq<GroupDetail>, m: u64) {
    (forall e :: e in groups ==> e.prev != NO_CURSOR) ==>
      if groups == [] then m == NO_CURSOR
      else (exists e :: e in groups && e.prev == m) && forall e :: e in groups ==> e.prev <= m
  }

  lemma MaxPrevIsLargest(groups: seq<GroupDetail>)
    ensures IsLargest(groups, MaxPrev(NO_CURSOR, groups))
  {
    if forall e :: e in groups ==> e.prev != NO_CURSOR { MaxPrevBounds(NO_CURSOR, groups); }
    if groups != [] { assert groups[0] in groups; }
  }

  lemma {:induction false} MaxPrevBounds(m: u64, groups: seq<GroupDetail>)
    requires forall e :: e in groups ==> e.prev != NO_CURSOR
    ensures var r := MaxPrev(m, groups);
      && (forall e :: e in groups ==> r != NO_CURSOR && e.prev <= r)
      && (m != NO_CURSOR ==> r != NO_CURSOR && m <= r)
      && (r == m || exists e :: e in groups && e.prev == r)
    decreases |groups|
  {
    if groups != [] {
      var next := if m == NO_CURSOR || groups[0].prev > m then groups[0].prev else m;
      MaxPrevBounds(next, groups[1..]);
      assert groups == [groups[0]] + groups[1..];
      hide MaxPrev;
    }
  }

  function MaxPrev(m: u64, groups: seq<GroupDetail>): u64
    decreases |groups|
  {
    if groups == [] then m
    else MaxPrev(if m == NO_CURSOR || groups[0].prev > m then groups[0].prev else m, groups[1..])
  }

  lemma NoGroups(view: View, q: int, m: u64)
    ensures SyncGroups(view, q, []) == view && MaxPrev(m, []) == m
  {
  }

  lemma NoneKnown(keys: set<(int, int)>, q: int, groups: seq<GroupDetail>)
    ensures AllKnown(keys, q, groups[..0])
  {
  }

  lemma GroupStep(view: View, q: int, groups: seq<GroupDetail>, j: nat)
    requires j < |groups|
    ensures var key := (groups[j].groupId, q);
      SyncGroups(view, q, groups[j..]) ==
        if key !in view then view else SyncGroups(view[key := SyncItem(view[key], groups[j].prev)], q, groups[j + 1..])
  {
    assert groups[j..][1..] == groups[j + 1..];
  }

  lemma KnownStep(keys: set<(int, int)>, q: int, groups: seq<GroupDetail>, j: nat)
    requires j < |groups| && AllKnown(keys, q, groups[..j])
    ensures if (groups[j].groupId, q) in keys then AllKnown(keys, q, groups[..j + 1]) else !AllKnown(keys, q, groups)
  {
  }

  lemma MaxPrevStep(m: u64, groups: seq<GroupDetail>, j: nat)
    requires j < |groups|
    ensures MaxPrev(m, groups[j..]) ==
      MaxPrev(if m == NO_CURSOR || groups[j].prev > m then groups[j].prev else m, groups[j + 1..])
  {
    assert groups[j..][1..] == groups[j + 1..];
  }

  lemma NoDetails(view: View, keys: set<(int, int)>, info: SyncCtrlInfo)
    ensures Sync(view, []) == view && SyncKnown(keys, info[..0])
  {
  }

  lemma DetailStep(view: View, info: SyncCtrlInfo, i: nat)
    requires i < |info|
    ensures var v := SyncGroups(view, info[i].queueId, info[i].groups);
      Sync(view, info[i..]) == if AllKnown(view.Keys, info[i].queueId, info[i].groups)
        then Sync(v, info[i + 1..]) else v
  {
    assert info[i..][1..] == info[i + 1..];
  }

  lemma DetailKnownStep(keys: set<(int, int)>, info: SyncCtrlInfo, i: nat)
    requires i < |info| && SyncKnown(keys, info[..i])
    ensures if AllKnown(keys, info[i].queueId, info[i].groups)
      then SyncKnown(keys, info[..i + 1]) else !SyncKnown(keys, info)
  {
    hide AllKnown;
  }
}
