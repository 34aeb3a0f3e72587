/** Enqueue and dequeue on one replica (phxqueue/store/basemgr.cpp, phxqueue/store/storesm.cpp). */
module BaseMgrs {
  import opened CursorId
  import opened Numbers
  import opened Options
  import opened StoreItems
  import opened StoreLog
  import opened StoreMetas
  import opened SyncCtrls

  /** `cli` are the cursors the client sends. */
  datatype GetRequest = GetRequest(queueId: int, groupId: int,
    limit: int, atime: nat, atimeMs: nat, cli: SyncCtrls.Cursors)

  datatype GetResponse = GetResponse(items: seq<QItem>, prev: u64, next: u64)

  datatype GetRet = GetOk(resp: GetResponse) | RangeQueue | AdjustCursorFail | GetItemFail

  // ---------------------------------------------------------------- one turn of the dequeue loop

  /** What one turn finds: nothing further, a read failure, an instance to step over, or items. */
  datatype Turn = NoMore | Failed | StepOver(cur: u64) | Found(cur: u64, found: seq<QItem>)

  /** Below the checkpoint the loop walks the log instance by instance, above it the metas. */
  function NextInstance(metas: seq<u64>, cp: u64, minInstance: u64, next: u64): Option<u64>
    requires Sorted(metas)
  {
    if cp == NO_CURSOR || next >= cp then
      var n := NextPos(metas, next);
      if n == |metas| then None else Some(metas[n])
    else if minInstance != NO_CURSOR && next < minInstance then Some(minInstance)
    else Some(Inc(next))
  }

  function TakeTurn(metas: seq<u64>, node: NodeView, cp: u64, minInstance: u64, q: int, prev: u64, next: u64): (t: Turn)
    requires Sorted(metas)
    ensures t.Found? ==> t.found != []
  {
    match NextInstance(metas, cp, minInstance, next)
    case None => NoMore
    case Some(cur) =>
      if prev != NO_CURSOR && prev >= cur then StepOver(cur)
      else
        match GetItemsByCursorID(node, q, cur)
        case NotChosen => NoMore
        case ReadError => Failed
        case Items(items) => if items == [] then StepOver(cur) else Found(cur, items)
  }

  /** `cur` is the instance to turn to: from the checkpoint on the first meta above `next`, below it the next
      instance, or the first one that is still in the log. */
  ghost predicate TurnsTo(metas: seq<u64>, cp: u64, minInstance: u64, next: u64, cur: u64) {
    if cp == NO_CURSOR || next >= cp
    then cur in metas && After(next) <= cur && forall m :: m in metas && After(next) <= m ==> cur <= m
    else cur == if minInstance != NO_CURSOR && next < minInstance then minInstance else next + 1
  }

  /** What a turn finds, seen from the log. */
  ghost predicate Finds(metas: seq<u64>, node: NodeView, cp: u64, minInstance: u64, q: int, prev: u64, next: u64,
      t: Turn)
  {
    match t
    case NoMore =>
      || ((cp == NO_CURSOR || next >= cp) && forall m :: m in metas ==> m < After(next))
      || exists cur: u64 :: TurnsTo(metas, cp, minInstance, next, cur) && |node.log| <= cur
    case Failed =>
      exists cur: u64 :: TurnsTo(metas, cp, minInstance, next, cur) && node.trunc <= cur && cur in node.broken
    case StepOver(cur) =>
      && TurnsTo(metas, cp, minInstance, next, cur)
      && ((prev != NO_CURSOR && cur <= prev) || cur < node.trunc || InstanceHolds(node.log, q, cur, []))
    case Found(cur, found) =>
      && TurnsTo(metas, cp, minInstance, next, cur) && (prev == NO_CURSOR || prev < cur)
      && node.trunc <= cur < |node.log| && cur !in node.broken
      && found != [] && InstanceHolds(node.log, q, cur, found)
  }

  lemma TurnFindsRight(metas: seq<u64>, node: NodeView, cp: u64, minInstance: u64, q: int, prev: u64, next: u64)
    requires Sorted(metas)
    ensures Finds(metas, node, cp, minInstance, q, prev, next, TakeTurn(metas, node, cp, minInstance, q, prev, next))
  {
    var at := NextInstance(metas, cp, minInstance, next);
    if at.Some? {
      NextInstanceIsRight(metas, cp, minInstance, next);
      var cur := at.value;
      if cur < |node.log| { var found := ItemsOfInstance(node.log, q, cur); }
    } else {
      var n := NextPos(metas, next);
    }
    hide ItemsAt, InstanceHolds, TurnsTo, NextInstance;
  }

  lemma NextInstanceIsRight(metas: seq<u64>, cp: u64, minInstance: u64, next: u64)
    requires Sorted(metas)
    ensures var at := NextInstance(metas, cp, minInstance, next);
      && (at.Some? ==> TurnsTo(metas, cp, minInstance, next, at.value))
      && (at.None? ==> (cp == NO_CURSOR || next >= cp) && forall m :: m in metas ==> m < After(next))
  {
    var n := NextPos(metas, next);
    if n < |metas| { assert metas[n] in metas; }
  }

  // ---------------------------------------------------------------- the whole loop

  const MAX_TURNS: nat := 512

  function Bytes(items: seq<QItem>): nat {
    if items == [] then 0 else items[0].byteSize + Bytes(items[1..])
  }

  lemma BytesOfConcat(a: seq<QItem>, b: seq<QItem>)
    ensures Bytes(a + b) == Bytes(a) + Bytes(b)
  {
    if a == [] { assert a + b == b; } else { assert (a + b)[1..] == a[1..] + b; }
  }

  lemma BytesOfOne(x: QItem)
    ensures Bytes([]) == 0 && Bytes([x]) == x.byteSize
  {
  }

  predicate TooLate(item: QItem, req: GetRequest) {
    req.atime != 0 && (item.atime > req.atime || (item.atime == req.atime && item.atimeMs > req.atimeMs))
  }

  /** Everything the loop reads and nothing writes meanwhile. `late(i)` says the time budget is used
      up when turn `i` starts. */
  datatype Scan = Scan(cfg: Config, metas: seq<u64>, node: NodeView, cp: u64,
    minInstance: u64, req: GetRequest, prev: u64, late: nat -> bool)

  datatype LoopResult = LoopFailed | LoopDone(next: u64, items: seq<QItem>)

  function Loop(s: Scan, i: nat, next: u64, items: seq<QItem>): LoopResult
    requires Sorted(s.metas)
    decreases MAX_TURNS - i
  {
    if i >= MAX_TURNS || |items| >= s.req.limit then LoopDone(next, items)
    else if i > 0 && s.late(i) then LoopDone(next, items)
    else
      match TakeTurn(s.metas, s.node, s.cp, s.minInstance, s.req.queueId, s.prev, next)
      case NoMore => LoopDone(next, items)
      case Failed => LoopFailed
      case StepOver(cur) => Loop(s, i + 1, cur, items)
      case Found(cur, found) =>
        if items != [] && |items| + |found| > s.req.limit then LoopDone(next, items)
        else if TooLate(found[0], s.req) then LoopDone(next, items)
        else
          var more := items + Meant(s.cfg, found, s.req.queueId, s.req.groupId);
          if Bytes(more) >= s.cfg.itemsByteSizeLimit then LoopDone(cur, more) else Loop(s, i + 1, cur, more)
  }

  /** Where a Get starts, given the stored item and the client's cursors. */
  function StartOf(item: CursorItem, cli: SyncCtrls.Cursors): SyncCtrls.Cursors {
    match Adjust(item, cli)
    case None => SyncCtrls.Cursors(NO_CURSOR, NO_CURSOR)
    case Some(cur) => cur
  }

  /** What a successful Get leaves in the stored item. */
  function AfterGet(item: CursorItem, prev: u64, next: u64): CursorItem {
    var item1 := if prev != NO_CURSOR then SetPrev(item, prev) else item;
    if next != NO_CURSOR then SetNext(item1, next) else item1
  }

  // ---------------------------------------------------------------- executing log values

  type MetaView = map<int, seq<u64>>

  function AddMeta(cfg: Config, metas: MetaView, cursor: u64, req: AddRequest): (r: MetaView)
    ensures r.Keys == metas.Keys
  {
    if req.items == [] || req.queueId !in cfg.pubQueues || req.queueId !in metas then metas
    else metas[req.queueId := PushCursor(metas[req.queueId], cursor)]
  }

  function ExecuteArgs(cfg: Config, metas: MetaView, view: View, cursor: u64, args: StorePaxosArgs): (MetaView, View) {
    (if args.add.Some? then AddMeta(cfg, metas, cursor, args.add.value) else metas,
     if args.sync.Some? then Sync(view, args.sync.value) else view)
  }

  /** Every detail moves or clears the dequeue mark of its queue, up to the first unknown group. */
  function SyncMarks(keys: set<(int, int)>, queues: seq<MetaQueue>, info: SyncCtrlInfo): (r: seq<MetaQueue>)
    requires forall i :: 0 <= i < |queues| ==> Ordered(queues[i])
    ensures |r| == |queues| && forall i :: 0 <= i < |r| ==> r[i].metas == queues[i].metas
    decreases |info|
  {
    if info == [] || !AllKnown(keys, info[0].queueId, info[0].groups) then queues
    else
      var q := info[0].queueId;
      var marked := if 0 <= q < |queues|
        then queues[q := Marked(queues[q], MaxPrev(NO_CURSOR, info[0].groups))] else queues;
      SyncMarks(keys, marked, info[1..])
  }

  datatype AddRet = AddOk | AddSkip | AddRangeQueue

  class BaseMgr {
    const cfg: Config
    const metaQueues: seq<StoreMetaQueue>
    const sync: SyncCtrl

    ghost predicate Valid() reads metaQueues {
      && ValidConfig(cfg)
      && |metaQueues| == cfg.nqueue
      && (forall i, j :: 0 <= i < j < |metaQueues| ==> metaQueues[i] != metaQueues[j])
      && (forall i :: 0 <= i < |metaQueues| ==> metaQueues[i].Valid())
      && sync.Valid() && sync.nqueue == cfg.nqueue && sync.nconsumerGroup == cfg.nconsumerGroup
      && (forall i :: 0 <= i < |metaQueues| ==> metaQueues[i] as object != sync.buf as object)
    }

    ghost function Metas(): MetaView reads metaQueues {
      map q | 0 <= q < |metaQueues| :: StoreMetas.Cursors(metaQueues[q].metas)
    }

    /** The meta queues with their dequeue marks. */
    ghost function Queues(): (r: seq<MetaQueue>)
      requires Valid()
      reads metaQueues
      ensures |r| == cfg.nqueue && forall i :: 0 <= i < |r| ==> r[i] == metaQueues[i].State() && Ordered(r[i])
    {
      seq(|metaQueues|, i requires 0 <= i < |metaQueues| reads metaQueues => metaQueues[i].State())
    }

    constructor (cfg: Config, crc32: Link)
      requires ValidConfig(cfg)
      ensures Valid() && this.cfg == cfg && fresh(metaQueues) && fresh(sync) && fresh(sync.buf)
      ensures forall q :: q in Metas() ==> Metas()[q] == []
      ensures forall k :: k in sync.State() ==> sync.State()[k] == BLANK
    {
      this.cfg := cfg;
      var queues: seq<StoreMetaQueue> := [];
      for i := 0 to cfg.nqueue
        invariant |queues| == i
        invariant forall j :: 0 <= j < i ==> fresh(queues[j]) && queues[j].Valid() && queues[j].State() == EMPTY_QUEUE
        invariant forall j, k :: 0 <= j < k < i ==> queues[j] != queues[k]
      {
        var queue := new StoreMetaQueue(crc32);
        queues := queues + [queue];
      }
      this.metaQueues := queues;
      this.sync := new SyncCtrl(cfg.nconsumerGroup, cfg.nqueue);
    }

    method NeedSkipAdd(cursor: u64, req: AddRequest) returns (skip: bool)
      requires Valid() && req.queueId in cfg.queues
      ensures !skip ==>
        AddMeta(cfg, Metas(), cursor, req) == Metas()[req.queueId := PushCursor(Metas()[req.queueId], cursor)]
      ensures skip ==> AddMeta(cfg, Metas(), cursor, req) == Metas()
    {
      if req.items == [] { return true; }
      ghost var before := Metas();
      var queue := metaQueues[req.queueId];
      assert before[req.queueId] == StoreMetas.Cursors(queue.metas);
      var found, back := queue.Back();
      if found && back.cursor >= cursor {
        BackIsLast(queue.metas, back);
        assert before[req.queueId := before[req.queueId]] == before;
        return true;
      }
      if req.queueId !in cfg.pubQueues { return true; }
      return false;
    }

    method Add(cursor: u64, req: AddRequest) returns (ret: AddRet)
      requires Valid()
      modifies metaQueues
      ensures Valid()
      ensures ret == AddRangeQueue <==> req.queueId !in cfg.queues
      ensures Metas() == if ret == AddRangeQueue then old(Metas()) else AddMeta(cfg, old(Metas()), cursor, req)
    {
      if req.queueId !in cfg.queues { return AddRangeQueue; }
      if req.items == [] { return AddOk; }
      var skip := NeedSkipAdd(cursor, req);
      if skip { return AddSkip; }
      PushMeta(req.queueId, cursor);
      return AddOk;
    }

    method PushMeta(q: int, cursor: u64)
      requires Valid() && 0 <= q < cfg.nqueue
      modifies metaQueues
      ensures Valid() && q in old(Metas()) && Metas() == old(Metas())[q := PushCursor(old(Metas())[q], cursor)]
    {
      hide PushCursor, AddMeta, Sorted, Push, ValidConfig;
      ghost var before := Metas();
      var queue := metaQueues[q];
      var ok := queue.PushBack(cursor);
      OneQueueChanged(before, q, PushCursor(before[q], cursor));
    }

    lemma OneQueueChanged(before: MetaView, q: int, cursors: seq<u64>)
      requires before.Keys == Metas().Keys && q in before
      requires StoreMetas.Cursors(metaQueues[q].metas) == cursors
      requires forall p :: p in before && p != q ==> StoreMetas.Cursors(metaQueues[p].metas) == before[p]
      ensures Metas() == before[q := cursors]
    {
    }

    /** The instance to turn to; the meta queue is consulted from the checkpoint on. */
    method NextToRead(s: Scan, next: u64) returns (found: bool, cur: u64)
      requires Valid() && 0 <= s.req.queueId < |metaQueues| && s.metas == Metas()[s.req.queueId]
      modifies metaQueues
      ensures Valid() && Metas() == old(Metas())
      ensures NextInstance(s.metas, s.cp, s.minInstance, next) == if found then Some(cur) else None
    {
      hide Consecutive, FirstFrom, CrcPass, Dequeued;
      found, cur := true, next;
      if s.cp == NO_CURSOR || cur >= s.cp {
        var queue := metaQueues[s.req.queueId];
        var meta, crcPass;
        found, meta, crcPass := queue.Next(cur);
        cur := meta.cursor;
      } else if s.minInstance != NO_CURSOR && cur < s.minInstance {
        cur := s.minInstance;
      } else {
        cur := Inc(cur);
      }
    }

    /** One turn of the dequeue loop: the next instance, and what it holds. */
    method Turn(s: Scan, next: u64) returns (turn: Turn)
      requires Valid() && 0 <= s.req.queueId < |metaQueues| && s.metas == Metas()[s.req.queueId]
      modifies metaQueues
      ensures Valid() && Metas() == old(Metas())
      ensures turn == TakeTurn(s.metas, s.node, s.cp, s.minInstance, s.req.queueId, s.prev, next)
      ensures Finds(s.metas, s.node, s.cp, s.minInstance, s.req.queueId, s.prev, next, turn)
    {
      assert Sorted(s.metas);
      TurnFindsRight(s.metas, s.node, s.cp, s.minInstance, s.req.queueId, s.prev, next);
      hide Valid, Metas, Finds, ItemsAt, Sorted, NextInstance;
      var found, cur := NextToRead(s, next);
      if !found { return NoMore; }
      if s.prev != NO_CURSOR && s.prev >= cur { return StepOver(cur); }
      match GetItemsByCursorID(s.node, s.req.queueId, cur)
      case NotChosen => return NoMore;
      case ReadError => return Failed;
      case Items(items) => return if items == [] then StepOver(cur) else Found(cur, items);
    }

    /** The dequeue loop itself. */
    method DequeueLoop(s: Scan, start: u64) returns (ok: bool, next: u64, items: seq<QItem>)
      requires Valid() && 0 <= s.req.queueId < |metaQueues| && s.metas == Metas()[s.req.queueId] && Sorted(s.metas)
      modifies metaQueues
      ensures Valid() && Metas() == old(Metas())
      ensures Loop(s, 0, start, []) == if ok then LoopDone(next, items) else LoopFailed
    {
      hide Valid, Metas, TakeTurn, Sorted, Meant;
      next, items := start, [];
      var byteSize := 0;
      var i := 0;
      while i < MAX_TURNS && |items| < s.req.limit
        invariant i <= MAX_TURNS && byteSize == Bytes(items)
        invariant Valid() && Metas() == old(Metas())
        invariant Loop(s, i, next, items) == Loop(s, 0, start, [])
      {
        if i > 0 && s.late(i) { return true, next, items; }
        var turn := Turn(s, next);
        match turn {
        case NoMore => return true, next, items;
        case Failed => return false, next, items;
        case StepOver(cur) => next := cur;
        case Found(cur, found) =>
          if items != [] && |items| + |found| > s.req.limit { return true, next, items; }
          if TooLate(found[0], s.req) { return true, next, items; }
          next := cur;
          var meant := Meant(s.cfg, found, s.req.queueId, s.req.groupId);
          BytesOfConcat(items, meant);
          byteSize := byteSize + Bytes(meant);
          items := items + meant;
          if byteSize >= s.cfg.itemsByteSizeLimit { return true, next, items; }
        }
        i := i + 1;
      }
      return true, next, items;
    }

    method StoreCursors(req: GetRequest, prev: u64, next: u64)
      requires Valid() && InRange(cfg.nconsumerGroup, cfg.nqueue, req.groupId, req.queueId)
      modifies sync.buf
      ensures Valid() && Metas() == old(Metas())
      ensures var key := (req.groupId, req.queueId);
        && key in old(sync.State())
        && sync.State() == old(sync.State())[key := AfterGet(old(sync.State())[key], prev, next)]
    {
      if prev != NO_CURSOR {
        var updated := sync.UpdateCursorID(req.groupId, req.queueId, prev, true);
      }
      if next != NO_CURSOR {
        var updated := sync.UpdateCursorID(req.groupId, req.queueId, next, false);
      }
      assert (req.groupId, req.queueId) in old(sync.State());
    }

    /** A Get that is not random. `cp` is the group's checkpoint when it starts. */
    method Get(req: GetRequest, node: NodeView, cp: u64, late: nat -> bool) returns (ret: GetRet)
      requires Valid() && req.groupId >= 0 && node.trunc < TWO_64
      modifies metaQueues, sync.buf
      ensures Valid() && Metas() == old(Metas())
      ensures ret.RangeQueue? <==> req.queueId !in cfg.queues
      ensures ret.AdjustCursorFail? <==>
        req.queueId in cfg.queues && !InRange(cfg.nconsumerGroup, cfg.nqueue, req.groupId, req.queueId)
      ensures !ret.GetOk? ==> sync.State() == old(sync.State())
      ensures !ret.RangeQueue? && !ret.AdjustCursorFail? ==>
        var key := (req.groupId, req.queueId);
        && key in old(sync.State())
        && var start := StartOf(old(sync.State())[key], req.cli);
           var s := Scan(cfg, Metas()[req.queueId], node, cp, node.trunc, req, start.prev, late);
           match Loop(s, 0, start.next, [])
           case LoopFailed => ret.GetItemFail?
           case LoopDone(next, items) =>
             && ret == GetOk(GetResponse(items, start.prev, next))
             && sync.State() == old(sync.State())[key := AfterGet(old(sync.State())[key], start.prev, next)]
    {
      if req.queueId !in cfg.queues { return RangeQueue; }
      assert Sorted(Metas()[req.queueId]);
      hide Loop, Sorted, Adjust, AfterGet, StoreMetas.Cursors;
      var adjusted, cli := sync.AdjustNextCursorID(req.groupId, req.queueId, req.cli);
      if adjusted == ErrArg { return AdjustCursorFail; }
      if adjusted == CursorNotFound { cli := SyncCtrls.Cursors(NO_CURSOR, NO_CURSOR); }
      var s := Scan(cfg, StoreMetas.Cursors(metaQueues[req.queueId].metas), node, cp, node.trunc, req, cli.prev, late);
      label scanning:
      var ok, next, items := DequeueLoop(s, cli.next);
      assert sync.State() == old@scanning(sync.State());
      if !ok { return GetItemFail; }
      StoreCursors(req, cli.prev, next);
      return GetOk(GetResponse(items, cli.prev, next));
    }

    /** StoreSM::Execute of one value; false when the queue of an add is unknown, or a group or queue of a
        sync value. */
    method Execute(cursor: u64, args: StorePaxosArgs) returns (ok: bool)
      requires Valid()
      requires args.sync.Some? ==> Addressable(cfg.nqueue, args.sync.value)
      modifies metaQueues, sync.buf
      ensures Valid()
      ensures var known := args.add.Some? ==> args.add.value.queueId in cfg.queues;
        && (ok <==> known && (args.sync.Some? ==> SyncKnown(old(sync.State()).Keys, args.sync.value)))
        && (Metas(), sync.State()) ==
             if known then ExecuteArgs(cfg, old(Metas()), old(sync.State()), cursor, args)
               else (old(Metas()), old(sync.State()))
    {
      if args.add.Some? {
        var ret := Add(cursor, args.add.value);
        if ret == AddRangeQueue { return false; }
      }
      assert sync.State() == old(sync.State());
      ok := true;
      if args.sync.Some? { ok := SyncCursorID(args.sync.value); }
    }

    /** SyncCursorID: replicated cursors only move forward, and the meta queues learn what was dequeued
        elsewhere; the first unknown group or queue ends it. */
    method SyncCursorID(info: SyncCtrlInfo) returns (ok: bool)
      requires Valid() && Addressable(cfg.nqueue, info)
      modifies metaQueues, sync.buf
      ensures Valid() && Metas() == old(Metas())
      ensures sync.State() == Sync(old(sync.State()), info)
      ensures Queues() == SyncMarks(old(sync.State()).Keys, old(Queues()), info)
      ensures ok <==> SyncKnown(old(sync.State()).Keys, info)
    {
      assert sync.Valid();
      ghost var before, marks := sync.State(), Queues();
      NoDetails(before, before.Keys, info);
      hide Valid, Metas, Queues, Sync, SyncGroups, SyncKnown, AllKnown, AddressableDetail, Marked, MaxPrev, SyncMarks;
      var i := 0;
      while i < |info|
        invariant 0 <= i <= |info|
        invariant Valid() && Metas() == old(Metas()) && sync.State().Keys == before.Keys
        invariant Sync(sync.State(), info[i..]) == Sync(before, info)
        invariant SyncMarks(before.Keys, Queues(), info[i..]) == SyncMarks(before.Keys, marks, info)
        invariant SyncKnown(before.Keys, info[..i])
      {
        DetailStep(sync.State(), info, i);
        DetailKnownStep(before.Keys, info, i);
        MarkStep(before.Keys, Queues(), info, i);
        var known := SyncQueueDetail(info[i]);
        if !known { return false; }
        i := i + 1;
      }
      assert info[i..] == [] && info[..i] == info;
      NoDetails(sync.State(), before.Keys, info);
      NoMarks(before.Keys, Queues());
      return true;
    }

    method SyncQueueDetail(detail: QueueDetail) returns (ok: bool)
      requires Valid() && AddressableDetail(cfg.nqueue, detail)
      modifies metaQueues, sync.buf
      ensures Valid() && Metas() == old(Metas())
      ensures sync.State() == SyncGroups(old(sync.State()), detail.queueId, detail.groups)
      ensures ok <==> AllKnown(old(sync.State()).Keys, detail.queueId, detail.groups)
      ensures var q := detail.queueId;
        Queues() == if ok && q < cfg.nqueue
          then old(Queues())[q := Marked(old(Queues())[q], MaxPrev(NO_CURSOR, detail.groups))] else old(Queues())
    {
      ghost var keys := sync.State().Keys;
      hide Valid, Metas, Queues, Marked, MaxPrev, SyncGroups, AllKnown, AddressableDetail, Sorted, ValidConfig;
      AddressableIds(cfg.nqueue, detail);
      var maxPrev;
      ok, maxPrev := SyncBuffer(detail);
      if ok {
        KnownQueueExists(keys, cfg.nqueue, detail);
        UpdateQueue(detail.queueId, maxPrev);
      }
    }

    method SyncBuffer(detail: QueueDetail) returns (ok: bool, maxPrev: u64)
      requires Valid() && 0 <= detail.queueId && forall e :: e in detail.groups ==> 0 <= e.groupId
      modifies sync.buf
      ensures Valid() && Metas() == old(Metas()) && Queues() == old(Queues())
      ensures forall k :: k in old(sync.State()) ==> k.1 < cfg.nqueue
      ensures sync.State() == SyncGroups(old(sync.State()), detail.queueId, detail.groups)
      ensures ok <==> AllKnown(old(sync.State()).Keys, detail.queueId, detail.groups)
      ensures ok ==> maxPrev == MaxPrev(NO_CURSOR, detail.groups)
    {
      hide MaxPrev, SyncGroups, AllKnown, Sorted, ValidConfig;
      ok, maxPrev := sync.SyncQueue(detail.queueId, detail.groups);
    }

    method EraseMetas(q: int, min: u64)
      requires Valid() && 0 <= q < cfg.nqueue
      modifies metaQueues
      ensures Valid() && sync.State() == old(sync.State())
      ensures q in old(Metas()) && Sorted(old(Metas())[q])
      ensures Metas() == old(Metas())[q := if min == NO_CURSOR then [] else EraseTill(old(Metas())[q], min)]
    {
      hide EraseTill, Erase, UpperBound, Consecutive, ValidConfig;
      ghost var before := Metas();
      var queue := metaQueues[q];
      if min == NO_CURSOR { queue.Clear(); } else { queue.EraseFrontTill(min); }
      hide Sorted;
      OneQueueChanged(before, q, if min == NO_CURSOR then [] else EraseTill(before[q], min));
    }

    method FrontOf(q: int) returns (found: bool, cursor: u64)
      requires Valid() && 0 <= q < cfg.nqueue
      ensures q in Metas() && (found <==> Metas()[q] != []) && (found ==> cursor == Metas()[q][0])
    {
      var queue := metaQueues[q];
      var size := queue.Size();
      var nonempty, meta := queue.Front();
      return size > 0 && nonempty, meta.cursor;
    }

    /** The backlog of a group whose cursor is given: the instances queued after it, right below 2^31. */
    method GetBackLogByCursorID(q: int, cursor: u64) returns (known: bool, backlog: int)
      requires Valid()
      ensures known <==> 0 <= q < cfg.nqueue
      ensures known ==>
        q in Metas() && backlog == if cursor == NO_CURSOR then |Metas()[q]| else Wrap32(CountAbove(Metas()[q], cursor))
      ensures known && |Metas()[q]| < 0x8000_0000 ==>
        backlog == if cursor == NO_CURSOR then |Metas()[q]| else CountAbove(Metas()[q], cursor)
      ensures !known ==> backlog == 0
    {
      if q < 0 || q >= cfg.nqueue { return false, 0; }
      known := true;
      var queue := metaQueues[q];
      if cursor == NO_CURSOR { backlog := queue.Size(); } else { backlog := queue.SizeGT(cursor); }
    }

    method UpdateQueue(q: int, maxPrev: u64)
      requires Valid() && 0 <= q < cfg.nqueue
      modifies metaQueues
      ensures Valid() && Metas() == old(Metas()) && sync.State() == old(sync.State())
      ensures Queues() == old(Queues())[q := Marked(old(Queues())[q], maxPrev)]
    {
      hide Sorted, Consecutive, StoreMetas.FirstFrom;
      var queue := metaQueues[q];
      if maxPrev == NO_CURSOR { queue.ClearDequeueStat(); } else { queue.UpdateDequeueStat(maxPrev); }
    }
  }

  lemma AddressableIds(nq: nat, d: QueueDetail)
    requires AddressableDetail(nq, d)
    ensures 0 <= d.queueId && forall e :: e in d.groups ==> 0 <= e.groupId
  {
  }

  lemma KnownQueueExists(keys: set<(int, int)>, nq: nat, d: QueueDetail)
    requires AddressableDetail(nq, d) && AllKnown(keys, d.queueId, d.groups) && forall k :: k in keys ==> k.1 < nq
    ensures d.queueId < nq
  {
    if d.groups != [] { assert (d.groups[0].groupId, d.queueId) in keys; }
  }

  lemma NoMarks(keys: set<(int, int)>, queues: seq<MetaQueue>)
    requires forall i :: 0 <= i < |queues| ==> Ordered(queues[i])
    ensures SyncMarks(keys, queues, []) == queues
  {
  }

  lemma MarkStep(keys: set<(int, int)>, queues: seq<MetaQueue>, info: SyncCtrlInfo, i: nat)
    requires i < |info| && forall j :: 0 <= j < |queues| ==> Ordered(queues[j])
    ensures var q := info[i].queueId;
      SyncMarks(keys, queues, info[i..]) ==
        if !AllKnown(keys, q, info[i].groups) then queues
        else SyncMarks(keys, if 0 <= q < |queues|
          then queues[q := Marked(queues[q], MaxPrev(NO_CURSOR, info[i].groups))] else queues, info[i + 1..])
  {
    assert info[i..][1..] == info[i + 1..];
  }

  lemma BackIsLast(metas: seq<StoreMeta>, back: StoreMeta)
    requires Sorted(StoreMetas.Cursors(metas)) && back in metas
    requires forall k :: 0 <= k < |metas| ==> metas[k].cursor <= back.cursor
    ensures StoreMetas.Cursors(metas)[|metas| - 1] == back.cursor
  {
  }
}
