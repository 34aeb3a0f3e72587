/** The two conditions of StorePass.StoredPrevNeverDecreases are needed: runs of StoreRun from its first state in
    which a stored prev moves back.

    Two replicas execute two adds and a consumer fetches both items from the first replica, which leaves a pair
    (0, 1) there. Then either a newcomer's Get overlaps the consumer's next one, or the first replica's two prevs
    reach the second replica one after the other while a Get is in progress there. Both endings start from any
    state of the shape they need, so that only the way there is specific to the configuration with one queue, one
    consumer group and two replicas. */
module StorePrevLimits {
  import opened CursorId
  import opened Options
  import opened StoreLog
  import opened StoreMetas
  import opened SyncCtrls
  import opened BaseMgrs
  import opened KeepSync
  import opened StoreRun
  import opened StoreSafety
  import opened StoreGets
  import opened StorePass
  import opened StoreLimits

  // ---------------------------------------------------------------- two ways in which a stored prev moves back

  ghost predicate CanBegin(cfg: Config, g: nat, s: Group, r: int, c: int, q: int)
    requires cfg.ngroup > 0
  {
    r in s.replicas && InGroup(cfg, g, q) && (c, q) in s.replicas[r].view && s.replicas[r].trunc < TWO_64
  }

  /** A newcomer's Get holds the stored prev. */
  lemma NewcomerBegins(cfg: Config, g: nat, s: Group, r: int, c: int, q: int, x: int, id: int)
      returns (steps: seq<Step>, t: Group, p: PendingGet)
    requires cfg.ngroup > 0 && CanBegin(cfg, g, s, r, c, q)
    requires id !in s.replicas[r].gets && s.replicas[r].view[(c, q)].prevMagic
    ensures Leads(cfg, g, s, steps, t) && p.c == c && p.q == q
    ensures p.prev == s.replicas[r].view[(c, q)].prev && !p.prevStored
    ensures t == With(s, r, s.replicas[r].(gets := s.replicas[r].gets[id := p])).(clients := t.clients)
    ensures forall y :: y in s.clients && y != x ==> y in t.clients && t.clients[y] == s.clients[y]
  {
    Stay(cfg, g, s);
    hide Leads;
    Then(cfg, g, s, [], s, Assign(x, c, q));
    var w1 := Do(cfg, g, s, Assign(x, c, q));
    Then(cfg, g, s, [] + [Assign(x, c, q)], w1, GetBegin(r, id, x));
    steps, t := [] + [Assign(x, c, q)] + [GetBegin(r, id, x)], Do(cfg, g, w1, GetBegin(r, id, x));
    p := t.replicas[r].gets[id];
  }

  /** Whenever a consumer has read on past the stored prev, a newcomer's Get that begins before that
      consumer's next one and ends after it moves the stored prev forward and back again. */
  lemma OverlappingStoresMoveBack(cfg: Config, g: nat, s: Group, r: int, c: int, q: int, x: int, y: int, i1: int,
      i2: int)
      returns (steps: seq<Step>, t: Group)
    requires cfg.ngroup > 0 && CanBegin(cfg, g, s, r, c, q) && i1 != i2
    requires i1 !in s.replicas[r].gets && i2 !in s.replicas[r].gets
    requires var item := s.replicas[r].view[(c, q)];
      && item.prevMagic && item.nextMagic && item.prev < item.next < NO_CURSOR
      && y in s.clients && y != x && s.clients[y].c == c && s.clients[y].q == q && s.clients[y].cur.next == item.next
    ensures Leads(cfg, g, s, steps, t) && PrevIs(t, r, c, q, s.replicas[r].view[(c, q)].next)
    ensures Enabled(cfg, g, t, GetStorePrev(r, i1))
    ensures PrevIs(Do(cfg, g, t, GetStorePrev(r, i1)), r, c, q, s.replicas[r].view[(c, q)].prev)
  {
    var s1, w1, p := NewcomerBegins(cfg, g, s, r, c, q, x, i1);
    hide Leads;
    Then(cfg, g, s, s1, w1, GetBegin(r, i2, y));
    var w2 := Do(cfg, g, w1, GetBegin(r, i2, y));
    Then(cfg, g, s, s1 + [GetBegin(r, i2, y)], w2, GetStorePrev(r, i2));
    steps, t := s1 + [GetBegin(r, i2, y)] + [GetStorePrev(r, i2)], Do(cfg, g, w2, GetStorePrev(r, i2));
  }

  function OneSync(c: int, q: int, p: u64): Instance {
    [StoreValue(StorePaxosArgs(None, Some([QueueDetail(q, [GroupDetail(c, p)])])))]
  }

  lemma OneSyncExecutes(cfg: Config, metas: MetaView, view: View, cursor: u64, c: int, q: int, p: u64)
    requires (c, q) in view
    ensures ExecuteInstance(cfg, metas, view, cursor, OneSync(c, q, p)) ==
      (metas, view[(c, q) := SyncItem(view[(c, q)], p)])
  {
    var groups := [GroupDetail(c, p)];
    var after := view[(c, q) := SyncItem(view[(c, q)], p)];
    assert groups[1..] == [] && [QueueDetail(q, groups)][1..] == [] && OneSync(c, q, p)[1..] == [];
    assert SyncGroups(view, q, groups) == after;
    assert Sync(view, [QueueDetail(q, groups)]) == after;
  }

  /** Whenever a later prev of the pair is on its way from another replica, executing it between the
      beginning and the end of a single Get moves the stored prev forward and back again. */
  lemma SyncDuringGetMovesBack(cfg: Config, g: nat, s: Group, r: int, c: int, q: int, x: int, id: int, p: u64)
      returns (steps: seq<Step>, t: Group)
    requires cfg.ngroup > 0 && CanBegin(cfg, g, s, r, c, q) && id !in s.replicas[r].gets
    requires s.replicas[r].applied == |s.log| < NO_CURSOR && (c, q, p) in s.offered
    requires s.replicas[r].view[(c, q)].prevMagic && s.replicas[r].view[(c, q)].prev < p
    ensures Leads(cfg, g, s, steps, t) && PrevIs(t, r, c, q, p)
    ensures Enabled(cfg, g, t, GetStorePrev(r, id))
    ensures PrevIs(Do(cfg, g, t, GetStorePrev(r, id)), r, c, q, s.replicas[r].view[(c, q)].prev)
  {
    var rep := s.replicas[r];
    var sync := OneSync(c, q, p);
    OneSyncExecutes(cfg, rep.metas, rep.view, rep.applied, c, q, p);
    var s1, w1, get := NewcomerBegins(cfg, g, s, r, c, q, x, id);
    hide Leads, ExecuteInstance;
    Then(cfg, g, s, s1, w1, Choose(sync));
    var w2 := Do(cfg, g, w1, Choose(sync));
    Then(cfg, g, s, s1 + [Choose(sync)], w2, Execute(r));
    steps, t := s1 + [Choose(sync)] + [Execute(r)], Do(cfg, g, w2, Execute(r));
  }

  // ---------------------------------------------------------------- both ways are open

  /** One queue, one consumer group, two replicas; consumer 0 serves the queue. */
  function OneQueue(): Config {
    Config(1, 1, 1, {0}, {0}, {(0, 1)}, (x: QItem, q: int, c: int) => false, 1000)
  }

  function Fresh(): Replica { Replica(0, 0, NO_CURSOR, map[0 := []], map[(1, 0) := BLANK], map[], None) }

  function OneQueueStart(): Group { Group([], map[0 := Fresh(), 1 := Fresh()], {}, {}, map[], {}) }

  lemma OneQueueInit()
    ensures ValidConfig(OneQueue()) && Init(OneQueue(), OneQueueStart())
  {
  }

  /** The consumer has been assigned and both replicas have executed `n` adds; replica 0 stores `item`,
      which the consumer knows. */
  ghost predicate Served(s: Group, x: QItem, n: nat, item: CursorItem, next: u64) {
    && n <= 2 && s.log == (if n == 0 then [] else if n == 1 then [OneAdd(0, x)] else [OneAdd(0, x), OneAdd(0, x)])
    && s.replicas.Keys == {0, 1} && 0 in s.clients && s.clients[0].c == 1
      && s.clients[0].q == 0 && s.clients[0].cur.next == next
    && (var metas: seq<u64> := if n == 0 then [] else if n == 1 then [0] else [0, 1];
       && s.replicas[0] == Fresh().(applied := n, metas := map[0 := metas], view := map[(1, 0) := item])
       && s.replicas[1] == Fresh().(applied := n, metas := map[0 := metas]))
  }

  /** An item is added, both replicas execute it, and the consumer fetches it from replica 0. */
  lemma AddAndServe(s: Group, x: QItem, n: nat, item: CursorItem, next: u64) returns (steps: seq<Step>, t: Group)
    requires Served(s, x, n, item, next)
    requires (n == 0 && item == BLANK && next == NO_CURSOR)
      || (n == 1 && item == CursorItem(false, 0, true, 0) && next == 0)
    ensures Leads(OneQueue(), 0, s, steps, t)
    ensures Served(t, x, n + 1, if n == 0 then CursorItem(false, 0, true, 0) else CursorItem(true, 0, true, 1), n)
  {
    var cfg := OneQueue();
    var s1, w1 := AddExecuted(s, x, n, item, next);
    var s2, w2 := Fetched(w1, x, n, item, next);
    Compose(cfg, 0, s, s1, w1, s2, w2);
    steps, t := s1 + s2, w2;
  }

  lemma AddExecuted(s: Group, x: QItem, n: nat, item: CursorItem, next: u64) returns (steps: seq<Step>, t: Group)
    requires n < 2 && Served(s, x, n, item, next)
    ensures Leads(OneQueue(), 0, s, steps, t) && Served(t, x, n + 1, item, next)
  {
    var cfg, add := OneQueue(), OneAdd(0, x);
    AddRuns(s.replicas[0], x, n);
    AddRuns(s.replicas[1], x, n);
    Stay(cfg, 0, s);
    hide Leads, ExecuteInstance;
    Then(cfg, 0, s, [], s, Choose(add));
    var w1 := Do(cfg, 0, s, Choose(add));
    Then(cfg, 0, s, [] + [Choose(add)], w1, Execute(0));
    var w2 := Do(cfg, 0, w1, Execute(0));
    Then(cfg, 0, s, [] + [Choose(add)] + [Execute(0)], w2, Execute(1));
    steps, t := [] + [Choose(add)] + [Execute(0)] + [Execute(1)], Do(cfg, 0, w2, Execute(1));
  }

  lemma AddRuns(rep: Replica, x: QItem, n: nat)
    requires n < 2 && rep.metas == map[0 := if n == 0 then [] else [0]]
    ensures ExecuteInstance(OneQueue(), rep.metas, rep.view, n, OneAdd(0, x)) ==
      (map[0 := if n == 0 then [0] else [0, 1]], rep.view)
  {
    OneAddExecutes(OneQueue(), rep.metas, rep.view, n, 0, x);
    PushAbove(rep.metas[0], n);
    hide ExecuteInstance, PushCursor;
    var more := if n == 0 then [0] else [0, 1];
    assert rep.metas[0] + [n] == more;
    assert rep.metas[0 := more] == map[0 := more];
  }

  /** What the turn of that Get finds. */
  lemma TurnFinds(s: Group, x: QItem, n: nat, item: CursorItem, next: u64, p: PendingGet)
    requires n < 2 && Served(s, x, n + 1, item, next)
    requires p.q == 0 && p.cp == NO_CURSOR && p.prev == p.next == (if n == 0 then NO_CURSOR else 0)
    ensures Sorted(s.replicas[0].metas[0]) && TurnOf(s.log, s.replicas[0], p) == Found(n, [x.(cursor := n)])
  {
    var metas := s.replicas[0].metas[0];
    OneAddHolds(0, x, n);
    hide ItemsAt;
    if n == 1 { UpperBoundIs(metas, 0, 1); }
    assert NextPos(metas, p.next) == n;
  }

  /** The Get has found the item of instance `n`. */
  ghost predicate Holds(s: Group, t: Group, x: QItem, n: nat) {
    && n < 2 && s.replicas.Keys == {0, 1}
    && var p := PendingGet(1, 0, if n == 0 then NO_CURSOR else 0, n, [x.(cursor := n)], NO_CURSOR, 0, false);
      t == With(s, 0, s.replicas[0].(gets := map[0 := p]))
  }

  function GetAt(n: nat): PendingGet {
    PendingGet(1, 0, if n == 0 then NO_CURSOR else 0, if n == 0 then NO_CURSOR else 0, [], NO_CURSOR, 0, false)
  }

  lemma Opened(s: Group, x: QItem, n: nat, item: CursorItem, next: u64)
    requires Served(s, x, n + 1, item, next)
    requires (n == 0 && item == BLANK && next == NO_CURSOR)
      || (n == 1 && item == CursorItem(false, 0, true, 0) && next == 0)
    ensures Enabled(OneQueue(), 0, s, GetBegin(0, 0, 0))
    ensures Do(OneQueue(), 0, s, GetBegin(0, 0, 0)) == With(s, 0, s.replicas[0].(gets := map[0 := GetAt(n)]))
  {
    var t := Do(OneQueue(), 0, s, GetBegin(0, 0, 0));
    assert t.replicas[0].gets == map[0 := GetAt(n)];
  }

  lemma Begun(s: Group, x: QItem, n: nat, item: CursorItem, next: u64) returns (steps: seq<Step>, t: Group)
    requires Served(s, x, n + 1, item, next)
    requires (n == 0 && item == BLANK && next == NO_CURSOR)
      || (n == 1 && item == CursorItem(false, 0, true, 0) && next == 0)
    ensures Leads(OneQueue(), 0, s, steps, t) && Holds(s, t, x, n)
  {
    var cfg, w1 := OneQueue(), With(s, 0, s.replicas[0].(gets := map[0 := GetAt(n)]));
    Stay(cfg, 0, s);
    Opened(s, x, n, item, next);
    Turned(s, x, n, item, next);
    hide Leads, Do, Enabled, Served, Holds;
    Then(cfg, 0, s, [], s, GetBegin(0, 0, 0));
    Then(cfg, 0, s, [] + [GetBegin(0, 0, 0)], w1, GetTurn(0, 0));
    steps, t := [] + [GetBegin(0, 0, 0)] + [GetTurn(0, 0)], Do(cfg, 0, w1, GetTurn(0, 0));
  }

  lemma Turned(s: Group, x: QItem, n: nat, item: CursorItem, next: u64)
    requires n < 2 && Served(s, x, n + 1, item, next)
    ensures var w := With(s, 0, s.replicas[0].(gets := map[0 := GetAt(n)]));
      Enabled(OneQueue(), 0, w, GetTurn(0, 0)) && Holds(s, Do(OneQueue(), 0, w, GetTurn(0, 0)), x, n)
  {
    var cfg, p := OneQueue(), GetAt(n);
    TurnFinds(s, x, n, item, next, p);
    TurnAdds(x, n);
    assert s.replicas.Keys == {0, 1} && s.replicas[0].applied <= |s.log| && 0 in s.replicas[0].metas;
    hide TurnOf, AfterTurn, Served, Sorted;
    var w := With(s, 0, s.replicas[0].(gets := map[0 := p]));
    SameTurn(s.log, s.replicas[0], w.replicas[0], p);
    var found := p.(next := n, items := [x.(cursor := n)]);
    assert map[0 := p][0 := found] == map[0 := found];
    var t := Do(cfg, 0, w, GetTurn(0, 0));
    assert t.replicas == s.replicas[0 := s.replicas[0].(gets := map[0 := found])];
  }

  lemma TurnAdds(x: QItem, n: nat)
    requires n < 2
    ensures AfterTurn(OneQueue(), GetAt(n), Found(n, [x.(cursor := n)])) ==
      GetAt(n).(next := n, items := [x.(cursor := n)])
  {
    assert Meant(OneQueue(), [x.(cursor := n)], 0, 1) == [x.(cursor := n)];
  }

  lemma Fetched(s: Group, x: QItem, n: nat, item: CursorItem, next: u64) returns (steps: seq<Step>, t: Group)
    requires Served(s, x, n + 1, item, next)
    requires (n == 0 && item == BLANK && next == NO_CURSOR)
      || (n == 1 && item == CursorItem(false, 0, true, 0) && next == 0)
    ensures Leads(OneQueue(), 0, s, steps, t)
    ensures Served(t, x, n + 1, if n == 0 then CursorItem(false, 0, true, 0) else CursorItem(true, 0, true, 1), n)
  {
    var s1, w1 := Begun(s, x, n, item, next);
    var s2, w2 := Stored(s, w1, x, n, item, next);
    Compose(OneQueue(), 0, s, s1, w1, s2, w2);
    steps, t := s1 + s2, w2;
  }

  lemma Stored(s: Group, s1: Group, x: QItem, n: nat, item: CursorItem, next: u64) returns (steps: seq<Step>, t: Group)
    requires Served(s, x, n + 1, item, next) && Holds(s, s1, x, n)
    requires (n == 0 && item == BLANK && next == NO_CURSOR)
      || (n == 1 && item == CursorItem(false, 0, true, 0) && next == 0)
    ensures Leads(OneQueue(), 0, s1, steps, t)
    ensures Served(t, x, n + 1, if n == 0 then CursorItem(false, 0, true, 0) else CursorItem(true, 0, true, 1), n)
  {
    var s2, w2 := Answered(s, s1, x, n, item, next);
    var resp := Response(1, 0, GetResponse([x.(cursor := n)], if n == 0 then NO_CURSOR else 0, n));
    hide Leads;
    Then(OneQueue(), 0, s1, s2, w2, Receive(0, resp));
    steps, t := s2 + [Receive(0, resp)], Do(OneQueue(), 0, w2, Receive(0, resp));
  }

  lemma Answered(s: Group, s1: Group, x: QItem, n: nat, item: CursorItem, next: u64)
      returns (steps: seq<Step>, t: Group)
    requires Served(s, x, n + 1, item, next) && Holds(s, s1, x, n)
    requires (n == 0 && item == BLANK && next == NO_CURSOR)
      || (n == 1 && item == CursorItem(false, 0, true, 0) && next == 0)
    ensures Leads(OneQueue(), 0, s1, steps, t)
    ensures Served(t, x, n + 1, if n == 0 then CursorItem(false, 0, true, 0) else CursorItem(true, 0, true, 1), next)
    ensures Response(1, 0, GetResponse([x.(cursor := n)], if n == 0 then NO_CURSOR else 0, n)) in t.sent
  {
    var cfg := OneQueue();
    Stay(cfg, 0, s1);
    hide Leads;
    Then(cfg, 0, s1, [], s1, GetStorePrev(0, 0));
    var w2 := Do(cfg, 0, s1, GetStorePrev(0, 0));
    Then(cfg, 0, s1, [] + [GetStorePrev(0, 0)], w2, GetStoreNext(0, 0));
    steps, t := [] + [GetStorePrev(0, 0)] + [GetStoreNext(0, 0)], Do(cfg, 0, w2, GetStoreNext(0, 0));
    var done := if n == 0 then CursorItem(false, 0, true, 0) else CursorItem(true, 0, true, 1);
    assert t.replicas[0].view == map[(1, 0) := done];
    assert t.replicas[0].gets == map[];
  }

  lemma TwoServed(x: QItem) returns (steps: seq<Step>, t: Group)
    ensures Leads(OneQueue(), 0, OneQueueStart(), steps, t) && Served(t, x, 2, CursorItem(true, 0, true, 1), 1)
  {
    var cfg, s0 := OneQueue(), OneQueueStart();
    Stay(cfg, 0, s0);
    Then(cfg, 0, s0, [], s0, Assign(0, 1, 0));
    var w1 := Do(cfg, 0, s0, Assign(0, 1, 0));
    assert Served(w1, x, 0, BLANK, NO_CURSOR);
    hide Leads, Served;
    var s2, w2 := AddAndServe(w1, x, 0, BLANK, NO_CURSOR);
    Compose(cfg, 0, s0, [] + [Assign(0, 1, 0)], w1, s2, w2);
    var s3, w3 := AddAndServe(w2, x, 1, CursorItem(false, 0, true, 0), 0);
    Compose(cfg, 0, s0, [] + [Assign(0, 1, 0)] + s2, w2, s3, w3);
    steps, t := [] + [Assign(0, 1, 0)] + s2 + s3, w3;
  }

  /** From the first state, two overlapping Gets of one group move its stored prev back. */
  lemma OverlapCanCome(x: QItem) returns (steps: seq<Step>, t: Group)
    ensures ValidConfig(OneQueue()) && Init(OneQueue(), OneQueueStart())
    ensures Leads(OneQueue(), 0, OneQueueStart(), steps, t)
    ensures PrevIs(t, 0, 1, 0, 1) && Enabled(OneQueue(), 0, t, GetStorePrev(0, 1))
    ensures PrevIs(Do(OneQueue(), 0, t, GetStorePrev(0, 1)), 0, 1, 0, 0)
  {
    OneQueueInit();
    var s1, w1 := TwoServed(x);
    var s2;
    s2, t := OverlappingStoresMoveBack(OneQueue(), 0, w1, 0, 1, 0, 1, 0, 1, 2);
    Compose(OneQueue(), 0, OneQueueStart(), s1, w1, s2, t);
    steps := s1 + s2;
  }

  /** Replica 0 offers the prev 0, moves on to 1 and offers that as well. */
  lemma BothOffered(x: QItem) returns (steps: seq<Step>, t: Group)
    ensures Leads(OneQueue(), 0, OneQueueStart(), steps, t)
    ensures t.log == [OneAdd(0, x), OneAdd(0, x)] && {(1, 0, 0), (1, 0, 1)} <= t.offered
    ensures t.replicas.Keys == {0, 1} && t.replicas[1] == Fresh().(applied := 2, metas := map[0 := [0, 1]])
  {
    var cfg, s0 := OneQueue(), OneQueueStart();
    var s1, w1 := TwoServed(x);
    hide Leads;
    Then(cfg, 0, s0, s1, w1, OfferSync(0, 1, 0));
    var w2 := Do(cfg, 0, w1, OfferSync(0, 1, 0));
    Then(cfg, 0, s0, s1 + [OfferSync(0, 1, 0)], w2, GetBegin(0, 0, 0));
    var w3 := Do(cfg, 0, w2, GetBegin(0, 0, 0));
    var s3 := s1 + [OfferSync(0, 1, 0)] + [GetBegin(0, 0, 0)];
    Then(cfg, 0, s0, s3, w3, GetStorePrev(0, 0));
    var w4 := Do(cfg, 0, w3, GetStorePrev(0, 0));
    Then(cfg, 0, s0, s3 + [GetStorePrev(0, 0)], w4, OfferSync(0, 1, 0));
    steps, t := s3 + [GetStorePrev(0, 0)] + [OfferSync(0, 1, 0)], Do(cfg, 0, w4, OfferSync(0, 1, 0));
  }

  /** Replica 1 has learnt the prev 0, and the prev 1 is on its way to it. */
  lemma OneIsOffered(x: QItem) returns (steps: seq<Step>, t: Group)
    ensures Leads(OneQueue(), 0, OneQueueStart(), steps, t)
    ensures CanBegin(OneQueue(), 0, t, 1, 1, 0) && t.replicas[1].gets == map[] && t.replicas[1].applied == |t.log| == 3
    ensures (1, 0, 1) in t.offered && PrevIs(t, 1, 1, 0, 0)
  {
    var cfg, s0 := OneQueue(), OneQueueStart();
    var s1, w1 := BothOffered(x);
    var rep := w1.replicas[1];
    OneSyncExecutes(cfg, rep.metas, rep.view, 2, 1, 0, 0);
    hide Leads, ExecuteInstance;
    Then(cfg, 0, s0, s1, w1, Choose(OneSync(1, 0, 0)));
    var w2 := Do(cfg, 0, w1, Choose(OneSync(1, 0, 0)));
    Then(cfg, 0, s0, s1 + [Choose(OneSync(1, 0, 0))], w2, Execute(1));
    steps, t := s1 + [Choose(OneSync(1, 0, 0))] + [Execute(1)], Do(cfg, 0, w2, Execute(1));
  }

  /** From the first state, one Get during which a replicated prev arrives moves a stored prev back. */
  lemma SyncDuringGetCanCome(x: QItem) returns (steps: seq<Step>, t: Group)
    ensures ValidConfig(OneQueue()) && Init(OneQueue(), OneQueueStart())
    ensures Leads(OneQueue(), 0, OneQueueStart(), steps, t)
    ensures PrevIs(t, 1, 1, 0, 1) && Enabled(OneQueue(), 0, t, GetStorePrev(1, 0))
    ensures PrevIs(Do(OneQueue(), 0, t, GetStorePrev(1, 0)), 1, 1, 0, 0)
  {
    OneQueueInit();
    var s1, w1 := OneIsOffered(x);
    hide Leads;
    var s2;
    s2, t := SyncDuringGetMovesBack(OneQueue(), 0, w1, 1, 1, 0, 1, 0, 1);
    Compose(OneQueue(), 0, OneQueueStart(), s1, w1, s2, t);
    steps := s1 + s2;
  }
}
