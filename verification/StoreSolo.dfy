/** One replica whose steps are taken one at a time: what happens to the stored cursor pairs, and what
    a Get returns, whatever cursors the clients send. */
module StoreSolo {
  import opened CursorId
  import opened Options
  import opened StoreItems
  import opened StoreLog
  import opened StoreMetas
  import opened SyncCtrls
  import opened BaseMgrs
  import opened KeepSync
  import opened StoreRun
  import opened StoreSafety
  import opened StoreGets

  // ---------------------------------------------------------------- cursor pairs

  /** A set prev comes with a set next that is not behind it, and the sentinel is never stored. */
  predicate PairItem(item: CursorItem) {
    && (item.prevMagic ==> item.prev != NO_CURSOR && item.nextMagic && item.prev <= item.next)
    && (item.nextMagic ==> item.next != NO_CURSOR)
  }

  predicate ItemForward(a: CursorItem, b: CursorItem) {
    PairItem(b) && (a.prevMagic ==> b.prevMagic && a.prev <= b.prev)
  }

  ghost predicate Forward(a: View, b: View) {
    a.Keys == b.Keys && forall k :: k in a ==> ItemForward(a[k], b[k])
  }

  ghost predicate Pairs(view: View) { forall k :: k in view ==> PairItem(view[k]) }

  /** A client can only resume at the stored next, if that is where it says it is, or else at the stored
      prev; without a stored prev, from the beginning. */
  lemma StartIsStored(item: CursorItem, cli: SyncCtrls.Cursors)
    requires PairItem(item)
    ensures var start := StartOf(item, cli);
      && Paired(start.prev, start.next)
      && (item.prevMagic ==>
        start.prev != NO_CURSOR && item.prev <= start.prev && (start.next == item.next || start.next == item.prev))
      && (item.nextMagic && cli.next == item.next && (cli.prev == NO_CURSOR || cli.prev <= cli.next) ==>
        start.next == item.next)
      && (!(item.nextMagic && cli.next == item.next && (cli.prev == NO_CURSOR || cli.prev <= cli.next)) ==>
            start == if item.prevMagic
              then SyncCtrls.Cursors(item.prev, item.prev) else SyncCtrls.Cursors(NO_CURSOR, NO_CURSOR))
  {
  }

  /** Whatever the loop sees, it only moves forward and never onto the sentinel. */
  lemma {:induction false} LoopAdvances(s: Scan, i: nat, next: u64, items: seq<QItem>)
    requires Sorted(s.metas)
    ensures var r := Loop(s, i, next, items);
      r.LoopDone? ==> r.next == next || (r.next != NO_CURSOR && After(next) <= r.next)
    decreases MAX_TURNS - i
  {
    hide Sorted, GetItemsByCursorID, Meant, Bytes, TooLate, NextPos;
    var turn := TakeTurn(s.metas, s.node, s.cp, s.minInstance, s.req.queueId, s.prev, next);
    if i < MAX_TURNS && (turn.StepOver? || turn.Found?) {
      NextInstanceAdvances(s.metas, s.cp, s.minInstance, next);
      assert NextInstance(s.metas, s.cp, s.minInstance, next) == Some(turn.cur);
      hide TakeTurn, NextInstance;
      LoopAdvances(s, i + 1, turn.cur, items);
      if turn.Found? {
        LoopAdvances(s, i + 1, turn.cur, items + Meant(s.cfg, turn.found, s.req.queueId, s.req.groupId));
      }
    }
  }

  lemma GetMovesForward(item: CursorItem, cli: SyncCtrls.Cursors, next: u64)
    requires PairItem(item)
    requires var start := StartOf(item, cli).next; next == start || (next != NO_CURSOR && After(start) <= next)
    ensures ItemForward(item, AfterGet(item, StartOf(item, cli).prev, next))
  {
  }

  lemma ForwardTransitive(a: View, b: View, c: View)
    requires Forward(a, b) && Forward(b, c)
    ensures Forward(a, c)
  {
  }

  /** Replicated prevs are stored prevs of some replica, so never the sentinel. */
  ghost predicate SetSync(info: SyncCtrlInfo) {
    forall d, e :: d in info && e in d.groups ==> e.prev != NO_CURSOR
  }

  ghost predicate SetSyncs(log: Log) {
    forall i, v :: 0 <= i < |log| && v in log[i] && v.StoreValue? && v.args.sync.Some? ==> SetSync(v.args.sync.value)
  }

  lemma {:induction false} GroupsMoveForward(view: View, q: int, groups: seq<GroupDetail>)
    requires Pairs(view) && forall e :: e in groups ==> e.prev != NO_CURSOR
    ensures Forward(view, SyncGroups(view, q, groups))
    decreases groups
  {
    if groups != [] {
      var e := groups[0];
      assert e in groups;
      var key := (e.groupId, q);
      var v := if key in view then view[key := SyncItem(view[key], e.prev)] else view;
      assert Forward(view, v);
      assert Pairs(v);
      GroupsMoveForward(v, q, groups[1..]);
      ForwardTransitive(view, v, SyncGroups(v, q, groups[1..]));
    }
  }

  lemma {:induction false} SyncMovesForward(view: View, info: SyncCtrlInfo)
    requires Pairs(view) && SetSync(info)
    ensures Forward(view, Sync(view, info))
    decreases info
  {
    if info != [] {
      assert info[0] in info;
      GroupsMoveForward(view, info[0].queueId, info[0].groups);
      var v := SyncGroups(view, info[0].queueId, info[0].groups);
      hide SyncGroups;
      assert Pairs(v);
      SyncMovesForward(v, info[1..]);
      ForwardTransitive(view, v, Sync(v, info[1..]));
    }
  }

  lemma {:induction false} InstanceMovesForward(cfg: Config, metas: MetaView, view: View, cursor: u64, inst: Instance)
    requires Pairs(view)
    requires forall v :: v in inst && v.StoreValue? && v.args.sync.Some? ==> SetSync(v.args.sync.value)
    ensures Forward(view, ExecuteInstance(cfg, metas, view, cursor, inst).1)
    decreases inst
  {
    if inst != [] {
      hide Sync;
      assert inst[0] in inst;
      if inst[0].StoreValue? && inst[0].args.sync.Some? { SyncMovesForward(view, inst[0].args.sync.value); }
      var (m, v) := if inst[0].StoreValue? then ExecuteArgs(cfg, metas, view, cursor, inst[0].args) else (metas, view);
      assert Forward(view, v);
      assert Pairs(v);
      InstanceMovesForward(cfg, m, v, cursor, inst[1..]);
      ForwardTransitive(view, v, ExecuteInstance(cfg, m, v, cursor, inst[1..]).1);
    }
  }

  // ---------------------------------------------------------------- the machine

  datatype SoloStep =
    | Execute
    | Get(req: GetRequest, broken: set<int>, late: nat -> bool)
    | MakeCheckPoint
    | Restart
    | LoadCheckpoint(cp: u64)
    | Truncate(t: nat)

  function ScanOf(cfg: Config, log: Log, rep: Replica, req: GetRequest, broken: set<int>, late: nat -> bool): Scan
    requires rep.applied <= |log| && rep.trunc < TWO_64
    requires req.queueId in rep.metas && (req.groupId, req.queueId) in rep.view
  {
    Scan(cfg, rep.metas[req.queueId], NodeView(log[..rep.applied], rep.trunc, broken), rep.cp, rep.trunc, req,
         StartOf(rep.view[(req.groupId, req.queueId)], req.cli).prev, late)
  }

  /** What BaseMgr's Get does on this replica, by its contract. */
  function LoopOf(cfg: Config, log: Log, rep: Replica, req: GetRequest, broken: set<int>, late: nat -> bool): LoopResult
    requires rep.applied <= |log| && rep.trunc < TWO_64
    requires req.queueId in rep.metas && (req.groupId, req.queueId) in rep.view
    requires Sorted(rep.metas[req.queueId])
  {
    Loop(ScanOf(cfg, log, rep, req, broken, late), 0, StartOf(rep.view[(req.groupId, req.queueId)], req.cli).next, [])
  }

  ghost predicate Can(cfg: Config, log: Log, rep: Replica, step: SoloStep) {
    match step
    case Execute => rep.applied < |log| && rep.applied < NO_CURSOR
    case Get(req, broken, late) =>
      && rep.applied <= |log| && rep.trunc < TWO_64
      && req.queueId in rep.metas && (req.groupId, req.queueId) in rep.view
      && Sorted(rep.metas[req.queueId])
    case MakeCheckPoint => cfg.ngroup > 0 && AllSorted(rep.metas) && rep.applied < TWO_64
    case Restart => true
    case LoadCheckpoint(cp) => After(cp) <= |log|
    case Truncate(t) => rep.trunc <= t <= After(rep.cp)
  }

  function Took(cfg: Config, g: nat, log: Log, rep: Replica, step: SoloStep): Replica
    requires Can(cfg, log, rep, step)
  {
    match step
    case Execute =>
      var (metas, view) := ExecuteInstance(cfg, rep.metas, rep.view, rep.applied, log[rep.applied]);
      rep.(applied := rep.applied + 1, metas := metas, view := view)
    case Get(req, broken, late) =>
      var key := (req.groupId, req.queueId);
      (match LoopOf(cfg, log, rep, req, broken, late)
       case LoopFailed => rep
       case LoopDone(next, items) =>
         rep.(view := rep.view[key := AfterGet(rep.view[key], StartOf(rep.view[key], req.cli).prev, next)]))
    case MakeCheckPoint =>
      var pass := ScanFrom(cfg, rep.view, rep.metas, g, NO_CURSOR);
      rep.(metas := pass.metas, cp := Dump(rep.cp, Proposed(pass, rep.applied)))
    case Restart => Restarted(rep)
    case LoadCheckpoint(cp) => Restarted(rep.(cp := cp, trunc := After(cp)))
    case Truncate(t) => rep.(trunc := t)
  }

  ghost predicate Acked(view: View, c: int, q: int, i: int) {
    (c, q) in view && view[(c, q)].prevMagic && i <= view[(c, q)].prev
  }

  /** What was executed above the checkpoint and is not among the metas was acknowledged. */
  ghost predicate Owed(cfg: Config, g: nat, log: Log, rep: Replica)
    requires cfg.ngroup > 0
  {
    forall c, q, i :: Matters(cfg, g, c, q) && 0 <= i < rep.applied && At(log, q, i) != [] ==>
      i < After(rep.cp) || (q in rep.metas && i in rep.metas[q]) || Acked(rep.view, c, q, i)
  }

  /** The metas of the group's queues were executed and lie above the checkpoint. */
  ghost predicate Bounded(cfg: Config, g: nat, applied: nat, cp: u64, metas: MetaView)
    requires cfg.ngroup > 0
  {
    Executed(cfg, g, applied, metas) && PassesNoMeta(cfg, g, metas, cp)
  }

  ghost predicate SoloInv(cfg: Config, g: nat, log: Log, rep: Replica)
    requires cfg.ngroup > 0
  {
    && |log| <= NO_CURSOR && rep.applied <= |log| && rep.trunc <= After(rep.cp) <= rep.applied
    && (forall q :: q in rep.metas <==> 0 <= q < cfg.nqueue)
    && (forall c, q :: (c, q) in rep.view <==> InRange(cfg.nconsumerGroup, cfg.nqueue, c, q))
    && AllSorted(rep.metas) && Bounded(cfg, g, rep.applied, rep.cp, rep.metas)
    && Pairs(rep.view) && Owed(cfg, g, log, rep)
  }

  // ---------------------------------------------------------------- every step

  lemma OwedStays(cfg: Config, g: nat, log: Log, a: Replica, b: Replica)
    requires cfg.ngroup > 0 && Owed(cfg, g, log, a) && Forward(a.view, b.view)
    requires b.applied == a.applied && b.cp == a.cp && b.metas == a.metas
    ensures Owed(cfg, g, log, b)
  {
    hide At, Matters;
    forall c, q, i | Matters(cfg, g, c, q) && 0 <= i < a.applied && At(log, q, i) != [] && Acked(a.view, c, q, i)
      ensures Acked(b.view, c, q, i)
    {
      assert ItemForward(a.view[(c, q)], b.view[(c, q)]);
    }
    hide Forward, Acked;
  }

  lemma ExecuteKeeps(cfg: Config, g: nat, log: Log, rep: Replica)
    requires ValidConfig(cfg) && SetSyncs(log) && SoloInv(cfg, g, log, rep) && rep.applied < |log|
    ensures var next := Took(cfg, g, log, rep, SoloStep.Execute);
      SoloInv(cfg, g, log, next) && Forward(rep.view, next.view)
  {
    var inst := log[rep.applied];
    hide ExecuteInstance, Owed, Bounded, ItemsAt, ItemForward, PairItem, ValidConfig;
    var (metas, view) := ExecuteInstance(cfg, rep.metas, rep.view, rep.applied, inst);
    InstanceMovesForward(cfg, rep.metas, rep.view, rep.applied, inst);
    InstanceKeepsKeys(cfg, rep.metas, rep.view, rep.applied, inst);
    forall q | q in rep.metas
      ensures metas[q] == (if q in cfg.pubQueues
        && At(log, q, rep.applied) != [] then PushCursor(rep.metas[q], rep.applied) else rep.metas[q])
    {
      InstancePushesOnce(cfg, rep.metas, rep.view, rep.applied, inst, q);
    }
    PushedIsOwed(cfg, g, log, rep, metas, view);
    ForwardKeepsPairs(rep.view, view);
    hide Forward, Pairs, At;
    forall q | q in metas ensures Sorted(metas[q]) { assert Sorted(rep.metas[q]); }
  }

  lemma ForwardKeepsPairs(a: View, b: View)
    requires Forward(a, b) && Pairs(a)
    ensures Pairs(b)
  {
    forall k | k in b ensures PairItem(b[k]) {
      assert ItemForward(a[k], b[k]);
      ForwardIsPair(a[k], b[k]);
    }
  }

  lemma ForwardIsPair(a: CursorItem, b: CursorItem)
    requires ItemForward(a, b)
    ensures PairItem(b)
  {
  }

  lemma PushedIsOwed(cfg: Config, g: nat, log: Log, rep: Replica, metas: MetaView, view: View)
    requires ValidConfig(cfg) && SoloInv(cfg, g, log, rep) && rep.applied < |log| && metas.Keys == rep.metas.Keys
    requires forall q :: q in rep.metas ==>
      metas[q] == if q in cfg.pubQueues
        && At(log, q, rep.applied) != [] then PushCursor(rep.metas[q], rep.applied) else rep.metas[q]
    requires Forward(rep.view, view)
    ensures Owed(cfg, g, log, rep.(applied := rep.applied + 1, metas := metas, view := view))
    ensures Bounded(cfg, g, rep.applied + 1, rep.cp, metas)
  {
    hide ItemsAt, Sorted;
    forall c, q, i | Matters(cfg, g, c, q) && 0 <= i < rep.applied + 1 && At(log, q, i) != []
      ensures i < After(rep.cp) || (q in metas && i in metas[q]) || Acked(view, c, q, i)
    {
      assert q in rep.metas && q in cfg.pubQueues;
      if i == rep.applied {
        assert rep.metas[q] != [] ==> rep.metas[q][|rep.metas[q]| - 1] in rep.metas[q];
        assert metas[q] == rep.metas[q] + [rep.applied];
        assert metas[q][|rep.metas[q]|] == i;
      } else {
        assert i in rep.metas[q] ==> i in metas[q];
        if Acked(rep.view, c, q, i) { assert ItemForward(rep.view[(c, q)], view[(c, q)]); }
      }
    }
    forall q, m | q in metas && InGroup(cfg, g, q) && m in metas[q] ensures After(rep.cp) <= m < rep.applied + 1 {
      assert m in rep.metas[q] || m == rep.applied;
    }
  }

  lemma GetKeeps(cfg: Config, g: nat, log: Log, rep: Replica, req: GetRequest, broken: set<int>, late: nat -> bool)
    requires ValidConfig(cfg) && SoloInv(cfg, g, log, rep) && Can(cfg, log, rep, Get(req, broken, late))
    ensures var next := Took(cfg, g, log, rep, Get(req, broken, late));
      SoloInv(cfg, g, log, next) && Forward(rep.view, next.view)
  {
    var key := (req.groupId, req.queueId);
    var start := StartOf(rep.view[key], req.cli);
    LoopAdvances(ScanOf(cfg, log, rep, req, broken, late), 0, start.next, []);
    var l := LoopOf(cfg, log, rep, req, broken, late);
    if l.LoopDone? { GetMovesForward(rep.view[key], req.cli, l.next); }
    hide Owed, Loop, StartOf, AfterGet, Bounded, AllSorted;
    OwedStays(cfg, g, log, rep, Took(cfg, g, log, rep, Get(req, broken, late)));
  }

  lemma PassBounds(cfg: Config, g: nat, log: Log, rep: Replica)
    requires ValidConfig(cfg) && g < cfg.ngroup && SoloInv(cfg, g, log, rep)
    ensures var pass := ScanFrom(cfg, rep.view, rep.metas, g, NO_CURSOR);
      var cp := Dump(rep.cp, Proposed(pass, rep.applied));
      && pass.metas.Keys == rep.metas.Keys && AllSorted(pass.metas) && OnlyErased(cfg, rep.view, rep.metas, pass)
      && After(rep.cp) <= After(cp) <= rep.applied && Bounded(cfg, g, rep.applied, cp, pass.metas)
  {
    var pass := ScanFrom(cfg, rep.view, rep.metas, g, NO_CURSOR);
    ScanFromScans(cfg, rep.view, rep.metas, g, NO_CURSOR);
    hide ScanFrom, Proposed, Dump, AllSorted, OnlyErased, Owed, BelowFronts, Fronted, Executed, PassesNoMeta, Pairs;
    CheckpointIsBelowMetas(cfg, g, rep.applied, rep.cp, rep.view, rep.metas, pass);
  }

  lemma PassKeeps(cfg: Config, g: nat, log: Log, rep: Replica)
    requires ValidConfig(cfg) && g < cfg.ngroup && SoloInv(cfg, g, log, rep)
    ensures var next := Took(cfg, g, log, rep, SoloStep.MakeCheckPoint);
      SoloInv(cfg, g, log, next) && After(rep.cp) <= After(next.cp)
  {
    PassBounds(cfg, g, log, rep);
    hide ScanFrom, Proposed, Dump, AllSorted, OnlyErased, Owed, Bounded, Pairs;
    ErasingKeepsOwed(cfg, g, log, rep, ScanFrom(cfg, rep.view, rep.metas, g, NO_CURSOR));
  }

  lemma ErasingKeepsOwed(cfg: Config, g: nat, log: Log, rep: Replica, pass: Pass)
    requires ValidConfig(cfg) && SoloInv(cfg, g, log, rep) && rep.applied < TWO_64
    requires pass.metas.Keys == rep.metas.Keys && OnlyErased(cfg, rep.view, rep.metas, pass)
    requires After(rep.cp) <= After(Dump(rep.cp, Proposed(pass, rep.applied)))
    ensures Owed(cfg, g, log, rep.(metas := pass.metas, cp := Dump(rep.cp, Proposed(pass, rep.applied))))
  {
    var cp := Dump(rep.cp, Proposed(pass, rep.applied));
    hide ItemsAt, Proposed, Dump, Bounded, Sorted, Kept;
    forall c, q, i | Matters(cfg, g, c, q) && 0 <= i < rep.applied && At(log, q, i) != []
      ensures i < After(cp) || (q in pass.metas && i in pass.metas[q]) || Acked(rep.view, c, q, i)
    {
      if q in rep.metas && i in rep.metas[q] && i !in pass.metas[q] {
        assert Sorted(rep.metas[q]);
        forall k | k in rep.view && k.1 == q && (q, k.0) in cfg.valid && rep.view[k].prevMagic
          ensures rep.view[k].prev != NO_CURSOR
        {
          assert PairItem(rep.view[k]);
        }
        ErasedWasAcknowledged(cfg, rep.view, q, rep.metas[q], c, i);
      }
    }
  }

  lemma StepKeeps(cfg: Config, g: nat, log: Log, rep: Replica, step: SoloStep)
    requires ValidConfig(cfg) && g < cfg.ngroup && SetSyncs(log)
    requires SoloInv(cfg, g, log, rep) && Can(cfg, log, rep, step)
    ensures var next := Took(cfg, g, log, rep, step);
      && SoloInv(cfg, g, log, next) && Forward(rep.view, next.view)
      && (!step.LoadCheckpoint? ==> After(rep.cp) <= After(next.cp))
  {
    match step
    case Execute => ExecuteKeeps(cfg, g, log, rep);
    case Get(req, broken, late) => GetKeeps(cfg, g, log, rep, req, broken, late);
    case MakeCheckPoint => PassKeeps(cfg, g, log, rep);
    case _ =>
  }

  // ---------------------------------------------------------------- whole runs

  ghost predicate CanRun(cfg: Config, g: nat, log: Log, rep: Replica, steps: seq<SoloStep>)
    decreases |steps|
  {
    steps != [] ==> Can(cfg, log, rep, steps[0]) && CanRun(cfg, g, log, Took(cfg, g, log, rep, steps[0]), steps[1..])
  }

  ghost function RunOf(cfg: Config, g: nat, log: Log, rep: Replica, steps: seq<SoloStep>): Replica
    requires CanRun(cfg, g, log, rep, steps)
    decreases |steps|
  {
    if steps == [] then rep else RunOf(cfg, g, log, Took(cfg, g, log, rep, steps[0]), steps[1..])
  }

  ghost predicate New(cfg: Config, rep: Replica) {
    && rep.applied == 0 && rep.trunc == 0 && rep.cp == NO_CURSOR
    && (forall q :: q in rep.metas <==> 0 <= q < cfg.nqueue)
    && (forall q :: q in rep.metas ==> rep.metas[q] == [])
    && (forall c, q :: (c, q) in rep.view <==> InRange(cfg.nconsumerGroup, cfg.nqueue, c, q))
    && (forall k :: k in rep.view ==> rep.view[k] == BLANK)
  }

  lemma {:induction false} RunKeeps(cfg: Config, g: nat, log: Log, rep: Replica, steps: seq<SoloStep>)
    requires ValidConfig(cfg) && g < cfg.ngroup && SetSyncs(log)
    requires SoloInv(cfg, g, log, rep) && CanRun(cfg, g, log, rep, steps)
    ensures var next := RunOf(cfg, g, log, rep, steps); SoloInv(cfg, g, log, next) && Forward(rep.view, next.view)
    decreases |steps|
  {
    if steps != [] {
      var one := Took(cfg, g, log, rep, steps[0]);
      StepKeeps(cfg, g, log, rep, steps[0]);
      RunKeeps(cfg, g, log, one, steps[1..]);
      ForwardTransitive(rep.view, one.view, RunOf(cfg, g, log, one, steps[1..]).view);
    }
  }

  /** Cursor pairs over whole runs: from any reachable state on, a stored prev never moves back, and in
      every reachable state each pair is in order and free of the sentinel. */
  lemma CursorPairsOnlyMoveForward(cfg: Config, g: nat, log: Log, rep: Replica, before: seq<SoloStep>,
      steps: seq<SoloStep>, k: (int, int))
    requires ValidConfig(cfg) && g < cfg.ngroup && SetSyncs(log) && |log| <= NO_CURSOR && New(cfg, rep)
    requires CanRun(cfg, g, log, rep, before) && CanRun(cfg, g, log, RunOf(cfg, g, log, rep, before), steps)
    ensures var a := RunOf(cfg, g, log, rep, before).view;
      var b := RunOf(cfg, g, log, RunOf(cfg, g, log, rep, before), steps).view;
      k in a ==>
        && k in b
        && (a[k].prevMagic ==> b[k].prevMagic && a[k].prev <= b[k].prev)
        && (b[k].prevMagic ==> b[k].nextMagic && b[k].prev <= b[k].next && b[k].prev != NO_CURSOR)
        && (b[k].nextMagic ==> b[k].next != NO_CURSOR)
  {
    assert SoloInv(cfg, g, log, rep);
    RunKeeps(cfg, g, log, rep, before);
    RunKeeps(cfg, g, log, RunOf(cfg, g, log, rep, before), steps);
    hide RunOf, CanRun, SoloInv;
    var a := RunOf(cfg, g, log, rep, before).view;
    var b := RunOf(cfg, g, log, RunOf(cfg, g, log, rep, before), steps).view;
    if k in a { assert ItemForward(a[k], b[k]); }
  }

  // ---------------------------------------------------------------- what a checkpoint stands for

  /** Every add at or below the checkpoint was acknowledged by all valid groups of its queue. */
  ghost predicate CheckpointAcked(cfg: Config, g: nat, log: Log, rep: Replica)
    requires cfg.ngroup > 0
  {
    forall c, q, i :: Matters(cfg, g, c, q) && 0 <= i < After(rep.cp) && At(log, q, i) != [] ==>
      Acked(rep.view, c, q, i)
  }

  lemma AckedStays(cfg: Config, g: nat, log: Log, a: Replica, b: Replica)
    requires cfg.ngroup > 0 && CheckpointAcked(cfg, g, log, a) && Forward(a.view, b.view) && b.cp == a.cp
    ensures CheckpointAcked(cfg, g, log, b)
  {
    hide At, Matters;
    forall c, q, i | Matters(cfg, g, c, q) && 0 <= i < After(b.cp) && At(log, q, i) != []
      ensures Acked(b.view, c, q, i)
    {
      assert Acked(a.view, c, q, i);
      assert ItemForward(a.view[(c, q)], b.view[(c, q)]);
    }
  }

  lemma PassIsAcked(cfg: Config, g: nat, log: Log, rep: Replica)
    requires ValidConfig(cfg) && g < cfg.ngroup && SoloInv(cfg, g, log, rep) && CheckpointAcked(cfg, g, log, rep)
    ensures CheckpointAcked(cfg, g, log, Took(cfg, g, log, rep, SoloStep.MakeCheckPoint))
  {
    var pass := ScanFrom(cfg, rep.view, rep.metas, g, NO_CURSOR);
    ScanFromScans(cfg, rep.view, rep.metas, g, NO_CURSOR);
    CheckpointIsBelowMetas(cfg, g, rep.applied, rep.cp, rep.view, rep.metas, pass);
    assert OnlyErased(cfg, rep.view, rep.metas, pass);
    var cp := Dump(rep.cp, Proposed(pass, rep.applied));
    hide ItemsAt, ScanFrom, Scanned, Proposed, Dump, Sorted, Kept;
    forall c, q, i | Matters(cfg, g, c, q) && 0 <= i < After(cp) && At(log, q, i) != []
      ensures Acked(rep.view, c, q, i)
    {
      if i >= After(rep.cp) && q in rep.metas && i in rep.metas[q] {
        assert i !in pass.metas[q];
        ErasedIsAcked(cfg, g, log, rep, pass, c, q, i);
      }
    }
  }

  lemma ErasedIsAcked(cfg: Config, g: nat, log: Log, rep: Replica, pass: Pass, c: int, q: int, i: u64)
    requires ValidConfig(cfg) && SoloInv(cfg, g, log, rep)
    requires Matters(cfg, g, c, q) && q in rep.metas && i in rep.metas[q]
    requires pass.metas.Keys == rep.metas.Keys && OnlyErased(cfg, rep.view, rep.metas, pass) && i !in pass.metas[q]
    ensures Acked(rep.view, c, q, i)
  {
    hide Kept;
    assert Sorted(rep.metas[q]);
    forall k | k in rep.view && k.1 == q && (q, k.0) in cfg.valid && rep.view[k].prevMagic
      ensures rep.view[k].prev != NO_CURSOR
    {
      assert PairItem(rep.view[k]);
    }
    ErasedWasAcknowledged(cfg, rep.view, q, rep.metas[q], c, i);
  }

  /** In every run that takes no checkpoint over from another replica, everything at or below the
      checkpoint has been acknowledged by all valid groups: a restart skips nothing that is still owed. */
  lemma {:induction false} CheckpointIsAcknowledged(cfg: Config, g: nat, log: Log, rep: Replica, steps: seq<SoloStep>)
    requires ValidConfig(cfg) && g < cfg.ngroup && SetSyncs(log)
    requires SoloInv(cfg, g, log, rep) && CheckpointAcked(cfg, g, log, rep)
    requires CanRun(cfg, g, log, rep, steps) && forall step :: step in steps ==> !step.LoadCheckpoint?
    ensures CheckpointAcked(cfg, g, log, RunOf(cfg, g, log, rep, steps))
    decreases |steps|
  {
    if steps != [] {
      assert steps[0] in steps;
      StepKeeps(cfg, g, log, rep, steps[0]);
      var one := Took(cfg, g, log, rep, steps[0]);
      assert CheckpointAcked(cfg, g, log, one) by {
        if steps[0].MakeCheckPoint? { PassIsAcked(cfg, g, log, rep); } else { AckedStays(cfg, g, log, rep, one); }
      }
      hide CheckpointAcked, SoloInv, Took, Can;
      CheckpointIsAcknowledged(cfg, g, log, one, steps[1..]);
    }
  }

  // ---------------------------------------------------------------- what a Get returns

  /** What a group has to be given from where its Get starts can be found. */
  lemma InvIsComplete(cfg: Config, g: nat, log: Log, rep: Replica, req: GetRequest, broken: set<int>, late: nat -> bool)
    requires ValidConfig(cfg) && SoloInv(cfg, g, log, rep) && Matters(cfg, g, req.groupId, req.queueId)
    requires Can(cfg, log, rep, Get(req, broken, late))
    ensures var s := ScanOf(cfg, log, rep, req, broken, late);
      Complete(s.node.log, req.queueId, s.cp, s.metas,
        FirstRead(rep.trunc, rep.cp, StartOf(rep.view[(req.groupId, req.queueId)], req.cli).next))
  {
    var s := ScanOf(cfg, log, rep, req, broken, late);
    var item := rep.view[(req.groupId, req.queueId)];
    var start := StartOf(item, req.cli);
    assert PairItem(item);
    StartIsStored(item, req.cli);
    hide ItemsAt, StartOf, Sorted;
    forall i | FirstRead(rep.trunc, rep.cp, start.next) <= i < |s.node.log|
      && ItemsAt(s.node.log[i], req.queueId, i) != []
      ensures i < After(s.cp) || i in s.metas
    {
      assert s.node.log[i] == log[i];
      assert At(log, req.queueId, i) != [];
      if Acked(rep.view, req.groupId, req.queueId, i) {
        AckedIsBehind(rep.view[(req.groupId, req.queueId)], start.prev, start.next, i, rep.trunc, rep.cp);
      }
    }
  }

  lemma AckedIsBehind(item: CursorItem, prev: u64, next: u64, i: int, trunc: nat, cp: u64)
    requires item.prevMagic && Paired(prev, next) && prev != NO_CURSOR && item.prev <= prev && i <= item.prev
    ensures i < FirstRead(trunc, cp, next)
  {
  }

  ghost predicate IsSlice(cfg: Config, log: Log, rep: Replica, req: GetRequest, broken: set<int>, late: nat -> bool)
    requires Can(cfg, log, rep, Get(req, broken, late)) && |log| < TWO_64
  {
    var start := StartOf(rep.view[(req.groupId, req.queueId)], req.cli);
    var l := LoopOf(cfg, log, rep, req, broken, late);
    l.LoopDone? ==>
      && Fits(ScanOf(cfg, log, rep, req, broken, late), l.items)
      && (l.next == start.next ==> l.items == [])
      && (l.next != start.next ==>
            && After(start.next) <= l.next < rep.applied
            && l.items == Slice(cfg, log[..rep.applied], req.queueId,
              req.groupId, FirstRead(rep.trunc, rep.cp, start.next), l.next + 1))
  }

  lemma GetIsSlice(cfg: Config, g: nat, log: Log, rep: Replica, req: GetRequest, broken: set<int>, late: nat -> bool)
    requires ValidConfig(cfg) && SoloInv(cfg, g, log, rep) && Can(cfg, log, rep, Get(req, broken, late))
    requires Matters(cfg, g, req.groupId, req.queueId)
    ensures IsSlice(cfg, log, rep, req, broken, late)
  {
    hide Owed, Bounded, AllSorted, Loop;
    var s := ScanOf(cfg, log, rep, req, broken, late);
    var item := rep.view[(req.groupId, req.queueId)];
    assert PairItem(item);
    StartIsStored(item, req.cli);
    InvIsComplete(cfg, g, log, rep, req, broken, late);
    hide StartOf, Complete, SoloInv, Sorted, FirstRead, Fits, Slice;
    assert Fits(s, []) by { NothingFits(s); }
    LoopIsSlice(s, 0, StartOf(item, req.cli).next, []);
  }

  lemma NothingFits(s: Scan)
    ensures Fits(s, [])
  {
  }

  /** In every reachable state a successful Get of a valid group, whatever cursors it sends, returns
      exactly what the log holds for the group from its start up to the returned next: in log order,
      without a gap or a repeat, at most `limit` items unless they are of one instance. */
  lemma GetReturnsSlice(cfg: Config, g: nat, log: Log, rep: Replica, steps: seq<SoloStep>, req: GetRequest,
      broken: set<int>, late: nat -> bool)
    requires ValidConfig(cfg) && g < cfg.ngroup && SetSyncs(log) && |log| <= NO_CURSOR && New(cfg, rep)
    requires CanRun(cfg, g, log, rep, steps) && Can(cfg, log, RunOf(cfg, g, log, rep, steps), Get(req, broken, late))
    requires Matters(cfg, g, req.groupId, req.queueId)
    ensures IsSlice(cfg, log, RunOf(cfg, g, log, rep, steps), req, broken, late)
  {
    hide IsSlice, Can;
    assert SoloInv(cfg, g, log, rep);
    RunKeeps(cfg, g, log, rep, steps);
    hide SoloInv, CanRun, RunOf;
    GetIsSlice(cfg, g, log, RunOf(cfg, g, log, rep, steps), req, broken, late);
  }

  /** Where the Get starts in the log: after the next cursor it resumes from, or else after the checkpoint, and
      not among the instances that were deleted. */
  ghost predicate StartsAt(rep: Replica, next: u64, lo: nat) {
    && rep.trunc <= lo
    && (next == NO_CURSOR ==> After(rep.cp) <= lo && (lo == rep.trunc || lo == After(rep.cp)))
    && (next != NO_CURSOR ==> next < lo && (lo == rep.trunc || lo == next + 1))
  }

  ghost predicate DeliversUpTo(cfg: Config, log: Log, rep: Replica, q: int, c: int, next: u64, last: u64,
      items: seq<QItem>)
  {
    exists lo: nat :: StartsAt(rep, next, lo) && Delivers(cfg, log, q, c, lo, last + 1, items)
  }

  /** What a successful Get returns: each item that the log holds for the group from the start up to the returned
      next once, in log order, and nothing else; at most `limit` items unless all are of one instance. */
  ghost predicate Returned(cfg: Config, log: Log, rep: Replica, req: GetRequest, broken: set<int>, late: nat -> bool)
    requires Can(cfg, log, rep, Get(req, broken, late))
  {
    var next := StartOf(rep.view[(req.groupId, req.queueId)], req.cli).next;
    var l := LoopOf(cfg, log, rep, req, broken, late);
    l.LoopDone? ==>
      && (|l.items| <= req.limit || forall x, y :: x in l.items && y in l.items ==> x.cursor == y.cursor)
      && if l.next == next then l.items == []
         else
           && (next != NO_CURSOR ==> next < l.next) && l.next < rep.applied
           && DeliversUpTo(cfg, log, rep, req.queueId, req.groupId, next, l.next, l.items)
  }

  /** In every reachable state that is what a successful Get of a valid group returns, whatever cursors it sends. */
  lemma GetReturnsItems(cfg: Config, g: nat, log: Log, rep: Replica, steps: seq<SoloStep>, req: GetRequest,
      broken: set<int>, late: nat -> bool)
    requires ValidConfig(cfg) && g < cfg.ngroup && SetSyncs(log) && |log| <= NO_CURSOR && New(cfg, rep)
    requires CanRun(cfg, g, log, rep, steps) && Can(cfg, log, RunOf(cfg, g, log, rep, steps), Get(req, broken, late))
    requires Matters(cfg, g, req.groupId, req.queueId)
    ensures Returned(cfg, log, RunOf(cfg, g, log, rep, steps), req, broken, late)
  {
    hide IsSlice, Can, Returned;
    assert SoloInv(cfg, g, log, rep);
    RunKeeps(cfg, g, log, rep, steps);
    hide SoloInv, CanRun, RunOf;
    GetIsSlice(cfg, g, log, RunOf(cfg, g, log, rep, steps), req, broken, late);
    SliceIsReturned(cfg, log, RunOf(cfg, g, log, rep, steps), req, broken, late);
  }

  lemma SliceIsReturned(cfg: Config, log: Log, rep: Replica, req: GetRequest, broken: set<int>, late: nat -> bool)
    requires Can(cfg, log, rep, Get(req, broken, late)) && |log| < TWO_64 && IsSlice(cfg, log, rep, req, broken, late)
    ensures Returned(cfg, log, rep, req, broken, late)
  {
    var next := StartOf(rep.view[(req.groupId, req.queueId)], req.cli).next;
    var l := LoopOf(cfg, log, rep, req, broken, late);
    hide LoopOf, ScanOf, StartOf, Slice, Fits, DeliversUpTo, FirstRead, Sorted;
    if l.LoopDone? {
      FitsIsPlain(ScanOf(cfg, log, rep, req, broken, late), l.items);
      LimitOfScan(cfg, log, rep, req, broken, late);
      if l.next != next { SliceIsDelivered(cfg, log, rep, req.queueId, req.groupId, next, l.next); }
    }
  }

  lemma LimitOfScan(cfg: Config, log: Log, rep: Replica, req: GetRequest, broken: set<int>, late: nat -> bool)
    requires Can(cfg, log, rep, Get(req, broken, late))
    ensures ScanOf(cfg, log, rep, req, broken, late).req == req
  {
  }

  lemma SliceIsDelivered(cfg: Config, log: Log, rep: Replica, q: int, c: int, next: u64, last: u64)
    requires last < rep.applied <= |log| < TWO_64 && rep.trunc < TWO_64
    ensures DeliversUpTo(cfg, log, rep, q, c, next, last,
      Slice(cfg, log[..rep.applied], q, c, FirstRead(rep.trunc, rep.cp, next), last + 1))
  {
    var lo := FirstRead(rep.trunc, rep.cp, next);
    var at := SliceEnumerates(cfg, log[..rep.applied], q, c, lo, last + 1);
    hide Slice, Delivers;
    PrefixDelivers(cfg, log, rep.applied, q, c, lo, last + 1, at,
      Slice(cfg, log[..rep.applied], q, c, lo, last + 1));
    assert StartsAt(rep, next, lo);
  }

  /** What a prefix of the log delivers, the log delivers. */
  lemma PrefixDelivers(cfg: Config, log: Log, n: nat, q: int, c: int, lo: nat, hi: nat, at: seq<Pos>, items: seq<QItem>)
    requires hi <= n <= |log| < TWO_64 && Enumerates(cfg, log[..n], q, c, lo, hi, at, items)
    ensures Delivers(cfg, log, q, c, lo, hi, items)
  {
    forall p: Pos | p.n < n
      ensures IsItem(log[..n], q, p) <==> IsItem(log, q, p)
      ensures IsItem(log, q, p) ==> ItemOf(log[..n], q, p) == ItemOf(log, q, p)
    {
    }
    forall i | 0 <= i < |at| ensures at[i].n < n { assert at[i] in at; }
    assert Enumerates(cfg, log, q, c, lo, hi, at, items);
  }

  lemma FitsIsPlain(s: Scan, items: seq<QItem>)
    requires Fits(s, items)
    ensures |items| <= s.req.limit || forall x, y :: x in items && y in items ==> x.cursor == y.cursor
  {
    if |items| > s.req.limit && items != [] {
      var n :| 0 <= n < |s.node.log| && n < TWO_64
        && items == Meant(s.cfg, ItemsAt(s.node.log[n], s.req.queueId, n), s.req.queueId, s.req.groupId);
      forall x | x in items ensures x.cursor == n { ItemsAreStored(s.node.log, s.req.queueId, n, x); }
    }
  }
}
