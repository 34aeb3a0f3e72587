/** What one Get returns, and how it moves the stored cursors, when the steps of a replica are taken
    one at a time and clients send whatever cursors they like. */
module StoreGets {
  import opened CursorId
  import opened Options
  import opened StoreLog
  import opened StoreMetas
  import opened SyncCtrls
  import opened BaseMgrs
  import opened KeepSync
  import opened StoreRun

  // ---------------------------------------------------------------- a Get is a slice of the log

  /** The first instance a Get that starts at `next` can return: above the checkpoint for a group
      without cursors, and nothing that was deleted from the log. */
  function FirstRead(trunc: nat, cp: u64, next: u64): nat {
    var lo := if next == NO_CURSOR then After(cp) else next + 1;
    if lo < trunc then trunc else lo
  }

  /** Everything from `lo` on that the queue holds can be found: in the log up to the checkpoint,
      through the metas above it. */
  ghost predicate Complete(log: Log, q: int, cp: u64, metas: seq<u64>, lo: nat) {
    && |log| <= NO_CURSOR
    && (forall m :: m in metas ==> After(cp) <= m < |log|)
    && (forall i :: lo <= i < |log| && ItemsAt(log[i], q, i) != [] ==> i < After(cp) || i in metas)
  }

  /** A start that holds its own prev back: prev <= next when both are set. */
  predicate Paired(prev: u64, next: u64) { prev != NO_CURSOR ==> next != NO_CURSOR && prev <= next }

  lemma NextInstanceAdvances(metas: seq<u64>, cp: u64, minInstance: u64, next: u64)
    requires Sorted(metas)
    ensures var cur := NextInstance(metas, cp, minInstance, next);
      cur.Some? ==> cur.value != NO_CURSOR && After(next) <= cur.value
  {
  }

  /** Nothing readable lies between where the loop stands and the instance it turns to. */
  lemma NothingBetween(s: Scan, next: u64, i: nat)
    requires Sorted(s.metas) && s.minInstance == s.node.trunc
    requires Complete(s.node.log, s.req.queueId, s.cp, s.metas, FirstRead(s.node.trunc, s.cp, next))
    requires var cur := NextInstance(s.metas, s.cp, s.minInstance, next);
      cur.Some? && FirstRead(s.node.trunc, s.cp, next) <= i < cur.value && i < |s.node.log|
    ensures ItemsAt(s.node.log[i], s.req.queueId, i) == []
  {
  }

  /** One turn adds what the slice gains by going up to the instance turned to. */
  lemma TurnExtendsSlice(s: Scan, next: u64)
    requires Sorted(s.metas) && s.minInstance == s.node.trunc && Paired(s.prev, next)
    requires Complete(s.node.log, s.req.queueId, s.cp, s.metas, FirstRead(s.node.trunc, s.cp, next))
    requires var turn := TakeTurn(s.metas, s.node, s.cp, s.minInstance, s.req.queueId, s.prev, next);
      turn.StepOver? || turn.Found?
    ensures var turn := TakeTurn(s.metas, s.node, s.cp, s.minInstance, s.req.queueId, s.prev, next);
      && turn.cur < |s.node.log| && turn.cur != NO_CURSOR && After(next) <= turn.cur
      && Slice(s.cfg, s.node.log, s.req.queueId, s.req.groupId, FirstRead(s.node.trunc, s.cp, next), turn.cur + 1)
         == if turn.StepOver? then [] else Meant(s.cfg, turn.found, s.req.queueId, s.req.groupId)
  {
    NextInstanceAdvances(s.metas, s.cp, s.minInstance, next);
    var turn := TakeTurn(s.metas, s.node, s.cp, s.minInstance, s.req.queueId, s.prev, next);
    var lo := FirstRead(s.node.trunc, s.cp, next);
    var q, c, log := s.req.queueId, s.req.groupId, s.node.log;
    var cur := turn.cur;
    assert NextInstance(s.metas, s.cp, s.minInstance, next) == Some(cur);
    assert s.prev == NO_CURSOR || s.prev < cur;
    if lo <= cur {
      forall i | lo <= i < cur ensures ItemsAt(log[i], q, i) == [] { NothingBetween(s, next, i); }
      SliceExtends(s.cfg, log, q, c, lo, lo, cur);
      assert Slice(s.cfg, log, q, c, lo, cur) == [];
      assert cur >= s.node.trunc;
      assert GetItemsByCursorID(s.node, q, cur) == Items(ItemsAt(log[cur], q, cur));
      assert Meant(s.cfg, [], q, c) == [];
      assert [] + Meant(s.cfg, ItemsAt(log[cur], q, cur), q, c) == Meant(s.cfg, ItemsAt(log[cur], q, cur), q, c);
    } else {
      if next == NO_CURSOR { assert cur in s.metas; }
      assert cur < s.node.trunc;
      assert GetItemsByCursorID(s.node, q, cur) == Items([]);
    }
  }

  lemma {:induction false} SliceSplits(cfg: Config, log: Log, q: int, c: int, lo: nat, mid: nat, hi: nat)
    requires lo <= mid <= hi <= |log| < TWO_64
    ensures Slice(cfg, log, q, c, lo, mid) + Slice(cfg, log, q, c, mid, hi) == Slice(cfg, log, q, c, lo, hi)
    decreases hi
  {
    hide Meant, ItemsAt;
    if mid == hi {
      assert Slice(cfg, log, q, c, mid, hi) == [];
    } else {
      SliceSplits(cfg, log, q, c, lo, mid, hi - 1);
      var last := Meant(cfg, ItemsAt(log[hi - 1], q, hi - 1), q, c);
      var left, right := Slice(cfg, log, q, c, lo, mid), Slice(cfg, log, q, c, mid, hi - 1);
      assert Slice(cfg, log, q, c, mid, hi) == right + last;
      assert Slice(cfg, log, q, c, lo, hi) == left + right + last;
      assert left + (right + last) == left + right + last;
    }
  }

  /** What a turn gains and what the rest of the loop gains are one slice together. */
  lemma TurnThenRest(s: Scan, next: u64, cur: u64, hi: nat)
    requires |s.node.log| <= NO_CURSOR && After(next) <= cur < hi <= |s.node.log|
    requires next == NO_CURSOR ==> After(s.cp) <= cur
    ensures Slice(s.cfg, s.node.log, s.req.queueId, s.req.groupId, FirstRead(s.node.trunc, s.cp, next), cur + 1)
          + Slice(s.cfg, s.node.log, s.req.queueId, s.req.groupId, FirstRead(s.node.trunc, s.cp, cur), hi)
         == Slice(s.cfg, s.node.log, s.req.queueId, s.req.groupId, FirstRead(s.node.trunc, s.cp, next), hi)
  {
    hide Meant, ItemsAt;
    if FirstRead(s.node.trunc, s.cp, next) <= cur {
      hide Slice;
      SliceSplits(s.cfg, s.node.log, s.req.queueId, s.req.groupId, FirstRead(s.node.trunc, s.cp, next), cur + 1, hi);
    } else {
      var rest := Slice(s.cfg, s.node.log, s.req.queueId, s.req.groupId, FirstRead(s.node.trunc, s.cp, cur), hi);
      assert FirstRead(s.node.trunc, s.cp, cur) == FirstRead(s.node.trunc, s.cp, next);
      assert Slice(s.cfg, s.node.log, s.req.queueId, s.req.groupId, FirstRead(s.node.trunc, s.cp, next), cur + 1) == [];
      hide Slice, FirstRead;
      assert [] + rest == rest;
    }
  }

  /** At most `limit` items, unless all come from one instance. */
  ghost predicate Fits(s: Scan, items: seq<QItem>) {
    |items| <= s.req.limit || items == [] ||
    exists n :: 0 <= n < |s.node.log| && n < TWO_64
      && items == Meant(s.cfg, ItemsAt(s.node.log[n], s.req.queueId, n), s.req.queueId, s.req.groupId)
  }

  lemma FoundIsOneInstance(s: Scan, next: u64)
    requires Sorted(s.metas)
    ensures var turn := TakeTurn(s.metas, s.node, s.cp, s.minInstance, s.req.queueId, s.prev, next);
      turn.Found? ==> Fits(s, Meant(s.cfg, turn.found, s.req.queueId, s.req.groupId))
  {
  }

  lemma StartIsAbove(s: Scan, next: u64)
    requires Sorted(s.metas) && next == NO_CURSOR
    requires forall m :: m in s.metas ==> After(s.cp) <= m
    ensures var cur := NextInstance(s.metas, s.cp, s.minInstance, next); cur.Some? ==> After(s.cp) <= cur.value
  {
    assert s.metas != [] ==> s.metas[0] in s.metas;
  }

  /** `r` is `items` and then exactly the slice of the log from where `next` stands to where `r` ends. */
  ghost predicate Extends(s: Scan, next: u64, items: seq<QItem>, r: LoopResult) {
    r.LoopDone? ==>
      && (r.next == next || (After(next) <= r.next < |s.node.log| && r.next != NO_CURSOR))
      && |s.node.log| < TWO_64
      && r.items == items + (if r.next == next then [] else
           Slice(s.cfg, s.node.log, s.req.queueId, s.req.groupId, FirstRead(s.node.trunc, s.cp, next), r.next + 1))
      && Fits(s, r.items)
  }

  lemma ExtendsAfterTurn(s: Scan, next: u64, cur: u64, items: seq<QItem>, gain: seq<QItem>, r: LoopResult)
    requires |s.node.log| <= NO_CURSOR && After(next) <= cur < |s.node.log| && cur != NO_CURSOR
    requires next == NO_CURSOR ==> After(s.cp) <= cur
    requires gain == Slice(s.cfg, s.node.log, s.req.queueId,
      s.req.groupId, FirstRead(s.node.trunc, s.cp, next), cur + 1)
    requires Extends(s, cur, items + gain, r)
    ensures Extends(s, next, items, r)
  {
    hide Slice, FirstRead, Fits;
    if r.LoopDone? && r.next != cur {
      TurnThenRest(s, next, cur, r.next + 1);
      var rest := Slice(s.cfg, s.node.log, s.req.queueId,
        s.req.groupId, FirstRead(s.node.trunc, s.cp, cur), r.next + 1);
      assert items + gain + rest == items + (gain + rest);
    }
    assert items + gain + [] == items + gain;
  }

  lemma OneTurn(s: Scan, next: u64) returns (cur: u64, gain: seq<QItem>)
    requires Sorted(s.metas) && s.minInstance == s.node.trunc && Paired(s.prev, next)
    requires Complete(s.node.log, s.req.queueId, s.cp, s.metas, FirstRead(s.node.trunc, s.cp, next))
    requires var turn := TakeTurn(s.metas, s.node, s.cp, s.minInstance, s.req.queueId, s.prev, next);
      turn.StepOver? || turn.Found?
    ensures var turn := TakeTurn(s.metas, s.node, s.cp, s.minInstance, s.req.queueId, s.prev, next);
      && cur == turn.cur && |s.node.log| <= NO_CURSOR && cur < |s.node.log| && cur != NO_CURSOR && After(next) <= cur
      && (next == NO_CURSOR ==> After(s.cp) <= cur)
      && gain == Slice(s.cfg, s.node.log, s.req.queueId, s.req.groupId, FirstRead(s.node.trunc, s.cp, next), cur + 1)
      && gain == (if turn.StepOver? then [] else Meant(s.cfg, turn.found, s.req.queueId, s.req.groupId))
      && Fits(s, gain) && Paired(s.prev, cur)
      && Complete(s.node.log, s.req.queueId, s.cp, s.metas, FirstRead(s.node.trunc, s.cp, cur))
  {
    TurnExtendsSlice(s, next);
    FoundIsOneInstance(s, next);
    if next == NO_CURSOR { StartIsAbove(s, next); }
    cur := TakeTurn(s.metas, s.node, s.cp, s.minInstance, s.req.queueId, s.prev, next).cur;
    gain := Slice(s.cfg, s.node.log, s.req.queueId, s.req.groupId, FirstRead(s.node.trunc, s.cp, next), cur + 1);
    hide TakeTurn, Slice, Meant;
  }

  /** A successful Get returns exactly the slice between where it starts and where it ends: in log
      order, without a gap or a repeat, across the switch from the log to the metas. */
  lemma {:induction false} LoopIsSlice(s: Scan, i: nat, next: u64, items: seq<QItem>)
    requires Sorted(s.metas) && s.minInstance == s.node.trunc && Paired(s.prev, next)
    requires Complete(s.node.log, s.req.queueId, s.cp, s.metas, FirstRead(s.node.trunc, s.cp, next))
    requires Fits(s, items)
    ensures Extends(s, next, items, Loop(s, i, next, items))
    decreases MAX_TURNS - i
  {
    hide TakeTurn, Slice, Meant, Bytes, FirstRead, Sorted, Complete, TooLate, Paired, Fits;
    var turn := TakeTurn(s.metas, s.node, s.cp, s.minInstance, s.req.queueId, s.prev, next);
    if i < MAX_TURNS && |items| < s.req.limit && (turn.StepOver? || turn.Found?) {
      var cur, gain := OneTurn(s, next);
      assert Complete(s.node.log, s.req.queueId, s.cp, s.metas, FirstRead(s.node.trunc, s.cp, cur));
      if turn.StepOver? || items == [] || |items| + |turn.found| <= s.req.limit {
        assert items + [] == items;
        MoreFits(s, items, gain);
        LoopIsSlice(s, i + 1, cur, items + gain);
        ExtendsAfterTurn(s, next, cur, items, gain, Loop(s, i + 1, cur, items + gain));
        ExtendsAfterTurn(s, next, cur, items, gain, LoopDone(cur, items + gain));
      }
    }
    assert items + [] == items;
    assert |s.node.log| < TWO_64 by { LogIsShort(s, next); }
  }

  lemma LogIsShort(s: Scan, next: u64)
    requires Complete(s.node.log, s.req.queueId, s.cp, s.metas, FirstRead(s.node.trunc, s.cp, next))
    ensures |s.node.log| < TWO_64
  {
  }

  lemma MoreFits(s: Scan, items: seq<QItem>, gain: seq<QItem>)
    requires Fits(s, gain)
    requires (gain == [] && Fits(s, items)) || items == [] || |items| + |gain| <= s.req.limit
    ensures Fits(s, items + gain)
  {
  }

  ghost predicate FrontAndOne(s: Scan, items: seq<QItem>, front: seq<QItem>, n: nat) {
    && (front == [] || Bytes(front) < s.cfg.itemsByteSizeLimit)
    && (items == front || items == front + Meant(s.cfg, At(s.node.log, s.req.queueId, n), s.req.queueId, s.req.groupId))
  }

  /** `items` is a part within the byte limit followed by at most one instance's items. */
  ghost predicate ByteBounded(s: Scan, items: seq<QItem>) { exists front, n: nat :: FrontAndOne(s, items, front, n) }

  /** A response overshoots the byte limit by at most one instance. */
  lemma {:induction false} LoopBoundsBytes(s: Scan, i: nat, next: u64, items: seq<QItem>)
    requires Sorted(s.metas) && |s.node.log| <= NO_CURSOR && (items == [] || Bytes(items) < s.cfg.itemsByteSizeLimit)
    ensures var r := Loop(s, i, next, items); r.LoopDone? ==> ByteBounded(s, r.items)
    decreases MAX_TURNS - i
  {
    hide Meant, TooLate, Sorted, NextInstance, ItemsAt;
    assert FrontAndOne(s, items, items, 0);
    var turn := TakeTurn(s.metas, s.node, s.cp, s.minInstance, s.req.queueId, s.prev, next);
    if i < MAX_TURNS && turn.StepOver? {
      LoopBoundsBytes(s, i + 1, turn.cur, items);
    } else if i < MAX_TURNS && turn.Found? {
      assert turn.found == At(s.node.log, s.req.queueId, turn.cur);
      hide TakeTurn, At;
      var more := items + Meant(s.cfg, turn.found, s.req.queueId, s.req.groupId);
      assert FrontAndOne(s, more, items, turn.cur);
      if Bytes(more) < s.cfg.itemsByteSizeLimit { LoopBoundsBytes(s, i + 1, turn.cur, more); }
    }
  }

  /** Nothing that a Get passes over or returns starts later than the time it asks for. */
  lemma {:induction false} LoopStopsAtLate(s: Scan, i: nat, next: u64, items: seq<QItem>, j: nat)
    requires Sorted(s.metas) && s.minInstance == s.node.trunc && Paired(s.prev, next)
    requires Complete(s.node.log, s.req.queueId, s.cp, s.metas, FirstRead(s.node.trunc, s.cp, next))
    ensures var r := Loop(s, i, next, items);
      r.LoopDone? && r.next != next && FirstRead(s.node.trunc, s.cp, next) <= j <= r.next
        && j < |s.node.log| && At(s.node.log, s.req.queueId, j) != [] ==>
        !TooLate(At(s.node.log, s.req.queueId, j)[0], s.req)
    decreases MAX_TURNS - i
  {
    hide TakeTurn, Slice, Meant, Bytes, Sorted, ItemsAt, TooLate, Complete, Paired, FirstRead, Fits;
    var turn := TakeTurn(s.metas, s.node, s.cp, s.minInstance, s.req.queueId, s.prev, next);
    if i < MAX_TURNS && |items| < s.req.limit && (turn.StepOver? || turn.Found?) {
      var cur, gain := OneTurn(s, next);
      if FirstRead(s.node.trunc, s.cp, next) <= j && cur < j { NextRead(s, next, cur, j); }
      if FirstRead(s.node.trunc, s.cp, next) <= j < |s.node.log| && At(s.node.log, s.req.queueId, j) != [] {
        TurnIsOnTime(s, next, j);
      }
      if turn.StepOver? {
        LoopStopsAtLate(s, i + 1, cur, items, j);
      } else {
        LoopStopsAtLate(s, i + 1, cur, items + Meant(s.cfg, turn.found, s.req.queueId, s.req.groupId), j);
      }
    }
  }

  lemma NextRead(s: Scan, next: u64, cur: u64, j: nat)
    requires cur != NO_CURSOR && FirstRead(s.node.trunc, s.cp, next) <= j && cur < j
    ensures FirstRead(s.node.trunc, s.cp, cur) <= j
  {
  }

  /** What lies before the instance turned to is empty; that instance is empty too, or was found. */
  lemma TurnIsOnTime(s: Scan, next: u64, j: nat)
    requires Sorted(s.metas) && s.minInstance == s.node.trunc && Paired(s.prev, next)
    requires Complete(s.node.log, s.req.queueId, s.cp, s.metas, FirstRead(s.node.trunc, s.cp, next))
    requires var turn := TakeTurn(s.metas, s.node, s.cp, s.minInstance, s.req.queueId, s.prev, next);
      turn.StepOver? || turn.Found?
    requires FirstRead(s.node.trunc, s.cp, next) <= j < |s.node.log| && At(s.node.log, s.req.queueId, j) != []
    ensures var turn := TakeTurn(s.metas, s.node, s.cp, s.minInstance, s.req.queueId, s.prev, next);
      turn.cur < j || (turn.cur == j && turn.Found? && turn.found == At(s.node.log, s.req.queueId, j))
  {
    NextInstanceAdvances(s.metas, s.cp, s.minInstance, next);
    var turn := TakeTurn(s.metas, s.node, s.cp, s.minInstance, s.req.queueId, s.prev, next);
    assert NextInstance(s.metas, s.cp, s.minInstance, next) == Some(turn.cur);
    assert s.prev == NO_CURSOR || s.prev < turn.cur;
    if j < turn.cur { NothingBetween(s, next, j); }
  }

  lemma NoMoreMeansDrained(s: Scan, next: u64, i: nat)
    requires Sorted(s.metas) && s.minInstance == s.node.trunc <= After(s.cp) <= |s.node.log| && Paired(s.prev, next)
    requires Complete(s.node.log, s.req.queueId, s.cp, s.metas, FirstRead(s.node.trunc, s.cp, next))
    requires TakeTurn(s.metas, s.node, s.cp, s.minInstance, s.req.queueId, s.prev, next).NoMore?
    requires FirstRead(s.node.trunc, s.cp, next) <= i < |s.node.log|
    ensures ItemsAt(s.node.log[i], s.req.queueId, i) == []
  {
    var n := NextPos(s.metas, next);
    if s.cp == NO_CURSOR || next >= s.cp {
      MetasAreChosen(s.metas, next, |s.node.log|);
      NotAbove(s.metas, next, i);
    }
  }

  lemma MetasAreChosen(metas: seq<u64>, next: u64, size: nat)
    requires Sorted(metas) && forall m :: m in metas ==> m < size
    ensures NextPos(metas, next) < |metas| ==> metas[NextPos(metas, next)] < size
  {
    if NextPos(metas, next) < |metas| { assert metas[NextPos(metas, next)] in metas; }
  }

  lemma NotAbove(metas: seq<u64>, next: u64, i: nat)
    requires Sorted(metas) && NextPos(metas, next) == |metas|
    ensures i in metas ==> i < After(next)
  {
  }

  /** The opposite bound: a Get that does not move has nothing left to hand out, or the next item is
      younger than the request allows. */
  lemma StuckMeansDrained(s: Scan, start: u64)
    requires Sorted(s.metas) && s.minInstance == s.node.trunc <= After(s.cp) <= |s.node.log| && Paired(s.prev, start)
    requires Complete(s.node.log, s.req.queueId, s.cp, s.metas, FirstRead(s.node.trunc, s.cp, start))
    requires s.req.limit > 0 && Loop(s, 0, start, []) == LoopDone(start, [])
    ensures var turn := TakeTurn(s.metas, s.node, s.cp, s.minInstance, s.req.queueId, s.prev, start);
      || (turn.Found? && TooLate(turn.found[0], s.req))
      || (forall i :: FirstRead(s.node.trunc, s.cp, start) <= i < |s.node.log| ==>
        ItemsAt(s.node.log[i], s.req.queueId, i) == [])
  {
    hide TakeTurn, Slice, Meant, Bytes, TooLate, Sorted, ItemsAt;
    var turn := TakeTurn(s.metas, s.node, s.cp, s.minInstance, s.req.queueId, s.prev, start);
    if turn.NoMore? {
      forall i | FirstRead(s.node.trunc, s.cp, start) <= i < |s.node.log|
        ensures ItemsAt(s.node.log[i], s.req.queueId, i) == []
      {
        NoMoreMeansDrained(s, start, i);
      }
    } else if turn.StepOver? || !TooLate(turn.found[0], s.req) {
      assert turn.StepOver? || turn.Found?;
      var cur, gain := OneTurn(s, start);
      LoopMoves(s, 0, start);
    }
  }

  /** The loop never comes back to where it was. */
  lemma LoopMoves(s: Scan, i: nat, next: u64)
    requires Sorted(s.metas) && s.minInstance == s.node.trunc && Paired(s.prev, next)
    requires Complete(s.node.log, s.req.queueId, s.cp, s.metas, FirstRead(s.node.trunc, s.cp, next))
    requires i == 0 < s.req.limit
    requires var turn := TakeTurn(s.metas, s.node, s.cp, s.minInstance, s.req.queueId, s.prev, next);
      turn.StepOver? || (turn.Found? && !TooLate(turn.found[0], s.req))
    ensures Loop(s, i, next, []).LoopDone? ==> Loop(s, i, next, []).next != next
  {
    hide TakeTurn, Slice, Meant, Bytes, TooLate, Sorted, ItemsAt, Fits, Complete, Extends;
    var cur, gain := OneTurn(s, next);
    LoopIsSlice(s, i + 1, cur, gain);
    assert [] + gain == gain;
    ExtendsMoves(s, next, cur, gain, Loop(s, i + 1, cur, gain));
  }

  lemma ExtendsMoves(s: Scan, next: u64, cur: u64, gain: seq<QItem>, r: LoopResult)
    requires After(next) <= cur && cur != NO_CURSOR && Extends(s, cur, gain, r)
    ensures r.LoopDone? ==> r.next != next
  {
  }

  // ---------------------------------------------------------------- when a Get stops

  datatype Standing = Standing(next: u64, items: seq<QItem>)

  function TurnAt(s: Scan, at: Standing): BaseMgrs.Turn
    requires Sorted(s.metas)
  {
    TakeTurn(s.metas, s.node, s.cp, s.minInstance, s.req.queueId, s.prev, at.next)
  }

  /** Where `t` turns lead; None when one of them could not be made. */
  function AfterTurns(s: Scan, start: Standing, t: nat): Option<Standing>
    requires Sorted(s.metas)
  {
    if t == 0 then Some(start)
    else
      match AfterTurns(s, start, t - 1)
      case None => None
      case Some(at) =>
        match TurnAt(s, at)
        case StepOver(cur) => Some(Standing(cur, at.items))
        case Found(cur, found) => Some(Standing(cur, at.items + Meant(s.cfg, found, s.req.queueId, s.req.groupId)))
        case _ => None
  }

  /** The last of `t` turns found something, and that was enough. */
  ghost predicate EnoughBytes(s: Scan, start: Standing, t: nat)
    requires Sorted(s.metas) && AfterTurns(s, start, t).Some?
  {
    && t > 0 && TurnAt(s, AfterTurns(s, start, t - 1).value).Found?
    && Bytes(AfterTurns(s, start, t).value.items) >= s.cfg.itemsByteSizeLimit
  }

  /** After `t` turns there is a reason to stop: 512 turns, enough items, no time left, enough bytes since the
      last turn found something, nothing further, a next instance that does not fit, or one that is too young. */
  ghost predicate Stops(s: Scan, start: Standing, t: nat)
    requires Sorted(s.metas) && AfterTurns(s, start, t).Some?
  {
    var at := AfterTurns(s, start, t).value;
    || t >= 512 || |at.items| >= s.req.limit || (t > 0 && s.late(t))
    || EnoughBytes(s, start, t)
    || TurnAt(s, at).NoMore?
    || (TurnAt(s, at).Found? && at.items != [] && |at.items| + |TurnAt(s, at).found| > s.req.limit)
    || (TurnAt(s, at).Found? && s.req.atime > 0 &&
          var item := TurnAt(s, at).found[0];
          item.atime > s.req.atime || (item.atime == s.req.atime && item.atimeMs > s.req.atimeMs))
  }

  /** `r` is where the loop stands after `t` turns. */
  ghost predicate EndsAfter(s: Scan, start: Standing, t: nat, r: LoopResult)
    requires Sorted(s.metas)
  {
    && AfterTurns(s, start, t).Some?
    && (forall u :: 0 <= u < t ==> AfterTurns(s, start, u).Some? && !Stops(s, start, u))
    && var at := AfterTurns(s, start, t).value;
       match r
       case LoopDone(next, items) => Stops(s, start, t) && at == Standing(next, items)
       case LoopFailed => !Stops(s, start, t) && TurnAt(s, at).Failed?
  }

  /** The loop makes turns up to the first reason to stop, not less and not more; it fails only when an instance
      cannot be read before there is one. */
  lemma LoopStopsFirst(s: Scan, next: u64)
    requires Sorted(s.metas)
    ensures exists t: nat :: EndsAfter(s, Standing(next, []), t, Loop(s, 0, next, []))
  {
    var t := StopsFrom(s, Standing(next, []), 0);
  }

  lemma {:induction false} StopsFrom(s: Scan, start: Standing, t: nat) returns (end: nat)
    requires Sorted(s.metas) && t <= MAX_TURNS && AfterTurns(s, start, t).Some?
    requires forall u :: 0 <= u < t ==> AfterTurns(s, start, u).Some? && !Stops(s, start, u)
    requires !EnoughBytes(s, start, t)
    ensures var at := AfterTurns(s, start, t).value; EndsAfter(s, start, end, Loop(s, t, at.next, at.items))
    decreases MAX_TURNS - t
  {
    hide Loop, TurnAt, AfterTurns, EnoughBytes, Stops, Sorted;
    OneMoreTurn(s, start, t);
    var at := AfterTurns(s, start, t).value;
    if Stops(s, start, t) || TurnAt(s, at).Failed? {
      end := t;
    } else if EnoughBytes(s, start, t + 1) {
      EnoughStops(s, start, t + 1);
      end := t + 1;
    } else {
      end := StopsFrom(s, start, t + 1);
    }
  }

  lemma EnoughStops(s: Scan, start: Standing, t: nat)
    requires Sorted(s.metas) && AfterTurns(s, start, t).Some? && EnoughBytes(s, start, t)
    ensures Stops(s, start, t)
  {
  }

  /** One round of the loop. */
  lemma OneMoreTurn(s: Scan, start: Standing, t: nat)
    requires Sorted(s.metas) && AfterTurns(s, start, t).Some? && !EnoughBytes(s, start, t)
    ensures var at := AfterTurns(s, start, t).value;
      if Stops(s, start, t) then Loop(s, t, at.next, at.items) == LoopDone(at.next, at.items)
      else if TurnAt(s, at).Failed? then Loop(s, t, at.next, at.items) == LoopFailed
      else
        && AfterTurns(s, start, t + 1).Some? && t < MAX_TURNS
        && var after := AfterTurns(s, start, t + 1).value;
           Loop(s, t, at.next, at.items) ==
             if EnoughBytes(s, start, t + 1) then LoopDone(after.next, after.items)
             else Loop(s, t + 1, after.next, after.items)
  {
    hide TakeTurn, Meant, Bytes;
  }

  // ---------------------------------------------------------------- a Get is a run of small steps

  lemma {:induction false} RunsCompose(cfg: Config, g: nat, s: Group, a: seq<Step>, b: seq<Step>)
    requires cfg.ngroup > 0 && Runs(cfg, g, s, a) && Runs(cfg, g, Final(cfg, g, s, a), b)
    ensures Runs(cfg, g, s, a + b) && Final(cfg, g, s, a + b) == Final(cfg, g, Final(cfg, g, s, a), b)
    decreases |a|
  {
    hide Do, Enabled;
    if a == [] {
      assert a + b == b;
    } else {
      assert (a + b)[0] == a[0] && (a + b)[1..] == a[1..] + b;
      RunsCompose(cfg, g, Do(cfg, g, s, a[0]), a[1..], b);
    }
  }

  /** A replica with one Get in the given state of progress. */
  function Serving(s: Group, r: int, id: int, p: PendingGet): Group
    requires r in s.replicas
  {
    With(s, r, s.replicas[r].(gets := s.replicas[r].gets[id := p]))
  }

  ghost predicate CanServe(s: Group, r: int, p: PendingGet) {
    && r in s.replicas && s.replicas[r].applied <= |s.log|
    && p.q in s.replicas[r].metas && Sorted(s.replicas[r].metas[p.q])
    && (p.c, p.q) in s.replicas[r].view && !p.prevStored
  }

  /** The loop of a Get that runs while nothing else happens on the replica. */
  ghost predicate Scans(cfg: Config, s: Group, r: int, p: PendingGet, scan: Scan) {
    && CanServe(s, r, p)
    && scan.cfg == cfg && scan.metas == s.replicas[r].metas[p.q]
    && scan.node.log == s.log[..s.replicas[r].applied] && scan.node.trunc == s.replicas[r].trunc
    && scan.cp == p.cp && scan.minInstance == p.minInstance && scan.prev == p.prev
    && scan.req.queueId == p.q && scan.req.groupId == p.c
  }

  lemma TurnIsStep(cfg: Config, g: nat, s: Group, r: int, id: int, p: PendingGet, scan: Scan, cur: u64,
      items: seq<QItem>)
    requires cfg.ngroup > 0 && Scans(cfg, s, r, p, scan)
    requires var turn := TakeTurn(scan.metas, scan.node, scan.cp, scan.minInstance, p.q, p.prev, p.next);
      || (turn.StepOver? && turn.cur == cur && items == p.items)
      || (turn.Found? && turn.cur == cur && items == p.items + Meant(cfg, turn.found, p.q, p.c))
    ensures var s1 := Serving(s, r, id, p);
      && Enabled(cfg, g, s1, GetTurn(r, id))
      && Do(cfg, g, s1, GetTurn(r, id)) == Serving(s, r, id, p.(next := cur, items := items))
  {
    hide NextInstance, Sorted, Meant;
    var s1 := Serving(s, r, id, p);
    var rep := s1.replicas[r];
    assert rep.gets[id := p.(next := cur, items := items)] == s.replicas[r].gets[id := p.(next := cur, items := items)];
    assert s1.replicas[r := rep.(gets := rep.gets[id := p.(next := cur, items := items)])]
        == Serving(s, r, id, p.(next := cur, items := items)).replicas;
  }

  lemma {:induction false} LoopIsTurns(cfg: Config, g: nat, s: Group, r: int, id: int, p: PendingGet, scan: Scan,
      i: nat)
      returns (steps: seq<Step>)
    requires cfg.ngroup > 0 && Scans(cfg, s, r, p, scan)
    ensures Runs(cfg, g, Serving(s, r, id, p), steps)
    ensures var l := Loop(scan, i, p.next, p.items);
      l.LoopDone? ==>
        Final(cfg, g, Serving(s, r, id, p), steps) == Serving(s, r, id, p.(next := l.next, items := l.items))
    decreases MAX_TURNS - i
  {
    hide TakeTurn, Enabled, Do, Serving, Sorted, Meant, Bytes, TooLate, Scans;
    assert p.(next := p.next, items := p.items) == p;
    assert Sorted(scan.metas) && scan.prev == p.prev && scan.cfg == cfg
      && scan.req.queueId == p.q && scan.req.groupId == p.c by {
      ScanIsFor(cfg, s, r, p, scan);
    }
    var turn := TakeTurn(scan.metas, scan.node, scan.cp, scan.minInstance, p.q, p.prev, p.next);
    steps := [];
    if i < MAX_TURNS && |p.items| < scan.req.limit && !(i > 0 && scan.late(i)) {
      if turn.StepOver? {
        steps := TurnThen(cfg, g, s, r, id, p, scan, i, turn.cur, p.items);
      } else if turn.Found? && !(p.items != [] && |p.items| + |turn.found| > scan.req.limit)
          && !TooLate(turn.found[0], scan.req) {
        var more := p.items + Meant(cfg, turn.found, p.q, p.c);
        if Bytes(more) >= cfg.itemsByteSizeLimit {
          TurnIsStep(cfg, g, s, r, id, p, scan, turn.cur, more);
          steps := [GetTurn(r, id)];
        } else {
          steps := TurnThen(cfg, g, s, r, id, p, scan, i, turn.cur, more);
        }
      }
    }
  }

  lemma ScanIsFor(cfg: Config, s: Group, r: int, p: PendingGet, scan: Scan)
    requires Scans(cfg, s, r, p, scan)
    ensures Sorted(scan.metas) && scan.prev == p.prev && scan.cfg == cfg
    ensures scan.req.queueId == p.q && scan.req.groupId == p.c
  {
  }

  lemma {:induction false} TurnThen(cfg: Config, g: nat, s: Group, r: int, id: int, p: PendingGet, scan: Scan, i: nat,
      cur: u64, items: seq<QItem>)
    returns (steps: seq<Step>)
    requires cfg.ngroup > 0 && Scans(cfg, s, r, p, scan) && i < MAX_TURNS
    requires var turn := TakeTurn(scan.metas, scan.node, scan.cp, scan.minInstance, p.q, p.prev, p.next);
      || (turn.StepOver? && turn.cur == cur && items == p.items)
      || (turn.Found? && turn.cur == cur && items == p.items + Meant(cfg, turn.found, p.q, p.c))
    ensures Runs(cfg, g, Serving(s, r, id, p), steps)
    ensures var l := Loop(scan, i + 1, cur, items);
      l.LoopDone? ==>
        Final(cfg, g, Serving(s, r, id, p), steps) == Serving(s, r, id, p.(next := l.next, items := l.items))
    decreases MAX_TURNS - i, 0
  {
    TurnIsStep(cfg, g, s, r, id, p, scan, cur, items);
    hide TakeTurn, Enabled, Do, Serving, Sorted, Meant, Loop;
    var p1 := p.(next := cur, items := items);
    var rest := LoopIsTurns(cfg, g, s, r, id, p1, scan, i + 1);
    steps := [GetTurn(r, id)] + rest;
    assert steps[1..] == rest;
  }

  /** The whole Get of BaseMgr is a run of the small steps: begin, turns, and the two cursor updates. */
  lemma GetIsSteps(cfg: Config, g: nat, s: Group, r: int, id: int, client: int, scan: Scan) returns (steps: seq<Step>)
    requires cfg.ngroup > 0 && Enabled(cfg, g, s, GetBegin(r, id, client))
    requires var cl := s.clients[client];
      && var start := StartOf(s.replicas[r].view[(cl.c, cl.q)], Request(cl));
      && Scans(cfg, s, r, PendingGet(cl.c, cl.q, start.prev, start.next,
        [], s.replicas[r].cp, s.replicas[r].trunc, false), scan)
    ensures Runs(cfg, g, s, steps)
    ensures var cl, rep := s.clients[client], s.replicas[r];
      var item := rep.view[(cl.c, cl.q)];
      var start := StartOf(item, Request(cl));
      var l := Loop(scan, 0, start.next, []);
      l.LoopDone? ==>
        var done := With(s, r, rep.(view := rep.view[(cl.c, cl.q) := AfterGet(item, start.prev, l.next)]));
        Final(cfg, g, s, steps) ==
          done.(sent := s.sent + {Response(cl.c, cl.q, GetResponse(l.items, start.prev, l.next))})
  {
    var cl, rep := s.clients[client], s.replicas[r];
    var start := StartOf(rep.view[(cl.c, cl.q)], Request(cl));
    var p := PendingGet(cl.c, cl.q, start.prev, start.next, [], rep.cp, rep.trunc, false);
    var turns := LoopIsTurns(cfg, g, s, r, id, p, scan, 0);
    var l := Loop(scan, 0, start.next, []);
    assert Do(cfg, g, s, GetBegin(r, id, client)) == Serving(s, r, id, p);
    hide Loop, StartOf, Sorted;
    steps := [GetBegin(r, id, client)] + turns;
    BeginThen(cfg, g, s, r, id, client, turns);
    if l.LoopDone? {
      var p1 := p.(next := l.next, items := l.items);
      FinishGet(cfg, g, s, r, id, p1);
      RunsCompose(cfg, g, s, steps, [GetStorePrev(r, id), GetStoreNext(r, id)]);
      steps := steps + [GetStorePrev(r, id), GetStoreNext(r, id)];
    }
  }

  lemma BeginThen(cfg: Config, g: nat, s: Group, r: int, id: int, client: int, turns: seq<Step>)
    requires cfg.ngroup > 0 && Enabled(cfg, g, s, GetBegin(r, id, client))
    requires Runs(cfg, g, Do(cfg, g, s, GetBegin(r, id, client)), turns)
    ensures var steps := [GetBegin(r, id, client)] + turns;
      Runs(cfg, g, s, steps) && Final(cfg, g, s, steps) == Final(cfg, g, Do(cfg, g, s, GetBegin(r, id, client)), turns)
  {
  }

  lemma FinishGet(cfg: Config, g: nat, s: Group, r: int, id: int, p: PendingGet)
    requires cfg.ngroup > 0 && CanServe(s, r, p) && id !in s.replicas[r].gets
    ensures var s1 := Serving(s, r, id, p);
      && Runs(cfg, g, s1, [GetStorePrev(r, id), GetStoreNext(r, id)])
      && Final(cfg, g, s1, [GetStorePrev(r, id), GetStoreNext(r, id)]) ==
           With(s, r, s.replicas[r].(view :=
             s.replicas[r].view[(p.c, p.q) := AfterGet(s.replicas[r].view[(p.c, p.q)], p.prev, p.next)]))
             .(sent := s.sent + {Response(p.c, p.q, GetResponse(p.items, p.prev, p.next))})
  {
    var s1 := Serving(s, r, id, p);
    var a, b := GetStorePrev(r, id), GetStoreNext(r, id);
    assert Enabled(cfg, g, s1, a);
    var s2 := Do(cfg, g, s1, a);
    assert Enabled(cfg, g, s2, b);
    var s3 := Do(cfg, g, s2, b);
    var rep := s.replicas[r];
    var view := rep.view[(p.c, p.q) := AfterGet(rep.view[(p.c, p.q)], p.prev, p.next)];
    assert s3.replicas[r].view == view;
    assert s3.replicas[r].gets == rep.gets;
    assert s3.replicas == s.replicas[r := rep.(view := view)];
    assert [a, b][1..] == [b] && [b][1..] == [];
    assert Runs(cfg, g, s2, [b]) && Final(cfg, g, s2, [b]) == Final(cfg, g, s3, []) by { hide Enabled, Do; }
    assert Final(cfg, g, s1, [a, b]) == s3 by { hide Enabled, Do; }
  }
}
