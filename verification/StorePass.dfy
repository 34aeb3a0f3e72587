/** Checkpoints and stored prevs over runs: when a pass may be interleaved with execution, that a checkpoint
    does not move back, what a restart rebuilds, and when a stored prev does not move back. */
module StorePass {
  import opened CursorId
  import opened Options
  import opened StoreLog
  import opened StoreMetas
  import opened SyncCtrls
  import opened BaseMgrs
  import opened KeepSync
  import opened StoreRun
  import opened StoreSafety

  // ---------------------------------------------------------------- interleaved passes

  /** A pass during which nothing executes always proposes something below the instance it sampled. */
  lemma AtomicPassStaysBelowNow(cfg: Config, g: nat, applied: nat, cp: u64, view: View, metas: MetaView)
    requires ValidConfig(cfg) && g < cfg.ngroup && AllSorted(metas) && Executed(cfg, g, applied, metas)
    requires (forall q :: q in metas <==> 0 <= q < cfg.nqueue) && After(cp) <= applied <= NO_CURSOR
    ensures After(Proposed(ScanFrom(cfg, view, metas, g, NO_CURSOR), applied)) <= applied
  {
    ScanFromScans(cfg, view, metas, g, NO_CURSOR);
    var pass := ScanFrom(cfg, view, metas, g, NO_CURSOR);
    if !pass.finished && pass.cp != NO_CURSOR {
      var p, m :| p in metas && g <= p < cfg.nqueue
        && p % cfg.ngroup == g % cfg.ngroup && m in metas[p] && pass.cp + 1 == m;
      ScannedIsInGroup(cfg, g, p);
    }
  }

  // ---------------------------------------------------------------- checkpoints over runs

  lemma CheckpointStepUp(cfg: Config, g: nat, s: Group, step: Step, r: int)
    requires cfg.ngroup > 0 && Enabled(cfg, g, s, step) && r in s.replicas
    requires !(step.LoadCheckpoint? && step.r == r)
    ensures r in Do(cfg, g, s, step).replicas && After(s.replicas[r].cp) <= After(Do(cfg, g, s, step).replicas[r].cp)
  {
  }

  /** A replica's checkpoint never moves back, except when it is replaced by another replica's. */
  lemma {:induction false} CheckpointNeverDecreases(cfg: Config, g: nat, s: Group, steps: seq<Step>, r: int)
    requires cfg.ngroup > 0 && Runs(cfg, g, s, steps) && r in s.replicas
    requires forall step :: step in steps ==> !(step.LoadCheckpoint? && step.r == r)
    ensures var t := Final(cfg, g, s, steps); r in t.replicas && After(s.replicas[r].cp) <= After(t.replicas[r].cp)
    decreases |steps|
  {
    if steps != [] {
      assert steps[0] in steps;
      CheckpointStepUp(cfg, g, s, steps[0], r);
      hide Do, Enabled;
      CheckpointNeverDecreases(cfg, g, Do(cfg, g, s, steps[0]), steps[1..], r);
    }
  }

  /** In every reachable state the background steps and the turns of a Get can be taken: their
      conditions ask for nothing the run does not provide. */
  lemma StepsStayPossible(cfg: Config, g: nat, init: Group, steps: seq<Step>, r: int)
    requires ValidConfig(cfg) && g < cfg.ngroup && Init(cfg, init)
    requires Runs(cfg, g, init, steps) && SafeRun(cfg, g, init, steps)
    ensures var s := Final(cfg, g, init, steps);
      r in s.replicas ==>
        && (s.replicas[r].pass.None? ==> Enabled(cfg, g, s, MakeCheckPoint(r)) && Enabled(cfg, g, s, PassBegin(r)))
        && (s.replicas[r].applied < |s.log| ==> Enabled(cfg, g, s, Execute(r)))
        && (forall id :: id in s.replicas[r].gets && !s.replicas[r].gets[id].prevStored ==>
          Enabled(cfg, g, s, GetTurn(r, id)))
  {
    InitHoldsInv(cfg, g, init);
    RunKeepsInv(cfg, g, init, steps);
    var s := Final(cfg, g, init, steps);
    hide Final, Runs;
    InvOf(cfg, g, s);
    if r in s.replicas { StepsArePossible(cfg, g, s, r); }
  }

  lemma StepsArePossible(cfg: Config, g: nat, s: Group, r: int)
    requires cfg.ngroup > 0 && r in s.replicas && ReplicaInv(Knows(cfg, s), g, s.replicas[r]) && |s.log| <= NO_CURSOR
    ensures s.replicas[r].pass.None? ==> Enabled(cfg, g, s, MakeCheckPoint(r)) && Enabled(cfg, g, s, PassBegin(r))
    ensures s.replicas[r].applied < |s.log| ==> Enabled(cfg, g, s, Execute(r))
    ensures forall id :: id in s.replicas[r].gets && !s.replicas[r].gets[id].prevStored ==>
      Enabled(cfg, g, s, GetTurn(r, id))
  {
    hide MetasInv, ViewInv, CheckpointInv;
    forall id | id in s.replicas[r].gets && !s.replicas[r].gets[id].prevStored
      ensures Enabled(cfg, g, s, GetTurn(r, id))
    {
      assert GetInv(Knows(cfg, s), g, s.replicas[r].trunc, s.replicas[r].cp, s.replicas[r].gets[id]);
      assert Sorted(s.replicas[r].metas[s.replicas[r].gets[id].q]);
    }
  }

  // ---------------------------------------------------------------- what a restart rebuilds

  /** Executing the instances lo, lo + 1, ..., hi - 1. */
  function ExecuteRange(cfg: Config, log: Log, metas: MetaView, view: View, lo: nat, hi: nat): (MetaView, View)
    requires lo <= hi <= |log| <= NO_CURSOR
    decreases hi
  {
    if lo == hi then (metas, view)
    else
      var (m, v) := ExecuteRange(cfg, log, metas, view, lo, hi - 1);
      ExecuteInstance(cfg, m, v, hi - 1, log[hi - 1])
  }

  /** The instances from lo to hi - 1 that hold something for queue `q`, in order. */
  function Holding(log: Log, q: int, lo: nat, hi: nat): seq<u64>
    requires lo <= hi <= |log| <= NO_CURSOR
    decreases hi
  {
    if lo == hi then []
    else Holding(log, q, lo, hi - 1) + (if ItemsAt(log[hi - 1], q, hi - 1) != [] then [hi - 1] else [])
  }

  lemma AppendKeepsSorted(s: seq<u64>, i: u64)
    requires Sorted(s) && i != NO_CURSOR && forall m :: m in s ==> m < i
    ensures Sorted(s + [i])
  {
    assert forall k :: 0 <= k < |s| ==> s[k] in s;
  }

  lemma {:induction false} HoldingHolds(log: Log, q: int, lo: nat, hi: nat)
    requires lo <= hi <= |log| <= NO_CURSOR
    ensures forall i: nat :: i in Holding(log, q, lo, hi) <==> lo <= i < hi && ItemsAt(log[i], q, i) != []
    ensures Sorted(Holding(log, q, lo, hi))
    decreases hi
  {
    hide ItemsAt;
    if lo < hi {
      HoldingHolds(log, q, lo, hi - 1);
      AppendKeepsSorted(Holding(log, q, lo, hi - 1), hi - 1);
      hide Sorted;
    }
  }

  /** After a restart, executing on from the checkpoint rebuilds the metas exactly: every queue of a pub
      gets the instances above the checkpoint that hold something for it, and no other. */
  lemma {:induction false} RestartRebuildsMetas(cfg: Config, log: Log, rep: Replica, hi: nat, q: int)
    requires After(rep.cp) <= hi <= |log| <= NO_CURSOR && q in rep.metas
    ensures var again := Restarted(rep);
      var metas := ExecuteRange(cfg, log, again.metas, again.view, again.applied, hi).0;
      && q in metas
      && metas[q] == if q in cfg.pubQueues then Holding(log, q, After(rep.cp), hi) else []
    decreases hi
  {
    hide ExecuteInstance, ItemsAt, Sorted, PushCursor;
    var again := Restarted(rep);
    if again.applied < hi {
      RestartRebuildsMetas(cfg, log, rep, hi - 1, q);
      var (m, v) := ExecuteRange(cfg, log, again.metas, again.view, again.applied, hi - 1);
      InstancePushesOnce(cfg, m, v, hi - 1, log[hi - 1], q);
      PushOntoHolding(log, q, After(rep.cp), hi - 1);
    }
  }

  /** What a restart brings back of a queue's metas by executing up to where it was before. */
  ghost function Rebuilt(cfg: Config, log: Log, rep: Replica, q: int): seq<u64>
    requires After(rep.cp) <= rep.applied <= |log| <= NO_CURSOR && q in rep.metas
  {
    var again := Restarted(rep);
    RestartRebuildsMetas(cfg, log, rep, rep.applied, q);
    ExecuteRange(cfg, log, again.metas, again.view, again.applied, rep.applied).0[q]
  }

  /** Group `c` has received what instance `m` holds for it. */
  ghost predicate Received(cfg: Config, s: Group, c: int, q: int, m: nat) {
    forall x :: x in At(s.log, q, m) && !cfg.skip(x, q, c) ==> (c, q, x) in s.received
  }

  /** Over every safe run a restart forgets nothing: executing up to where it was before, the replica gets
      every meta above its checkpoint back; every valid group had received the others, and whatever it gets
      back besides. */
  lemma RestartForgetsNothing(cfg: Config, g: nat, init: Group, steps: seq<Step>, r: int, q: int)
    requires ValidConfig(cfg) && g < cfg.ngroup && Init(cfg, init)
    requires Runs(cfg, g, init, steps) && SafeRun(cfg, g, init, steps)
    requires r in Final(cfg, g, init, steps).replicas && InGroup(cfg, g, q)
    ensures var s := Final(cfg, g, init, steps); var rep := s.replicas[r];
      && After(rep.cp) <= rep.applied <= |s.log| <= NO_CURSOR && q in rep.metas
      && var again := Rebuilt(cfg, s.log, rep, q);
      && (forall m :: m in rep.metas[q] ==> (m in again <==> After(rep.cp) <= m))
      && forall m, c :: (m in rep.metas[q] <==> m !in again) && m < rep.applied && Matters(cfg, g, c, q) ==>
        Received(cfg, s, c, q, m)
  {
    InitHoldsInv(cfg, g, init);
    RunKeepsInv(cfg, g, init, steps);
    RebuiltMetas(cfg, g, Final(cfg, g, init, steps), r, q);
  }

  lemma RebuiltMetas(cfg: Config, g: nat, s: Group, r: int, q: int)
    requires ValidConfig(cfg) && g < cfg.ngroup && Inv(cfg, g, s) && r in s.replicas && InGroup(cfg, g, q)
    ensures var rep := s.replicas[r];
      && After(rep.cp) <= rep.applied <= |s.log| <= NO_CURSOR && q in rep.metas
      && var again := Rebuilt(cfg, s.log, rep, q);
      && (forall m :: m in rep.metas[q] ==> (m in again <==> After(rep.cp) <= m))
      && forall m, c :: (m in rep.metas[q] <==> m !in again) && m < rep.applied && Matters(cfg, g, c, q) ==>
        Received(cfg, s, c, q, m)
  {
    var rep, k := s.replicas[r], Knows(cfg, s);
    assert ReplicaInv(k, g, rep);
    assert MetasInv(k, g, rep.applied, q, rep.metas[q]);
    RestartRebuildsMetas(cfg, s.log, rep, rep.applied, q);
    HoldingHolds(s.log, q, After(rep.cp), rep.applied);
    var again := Rebuilt(cfg, s.log, rep, q);
    forall m, c | (m in rep.metas[q] <==> m !in again) && m < rep.applied && Matters(cfg, g, c, q)
      ensures Received(cfg, s, c, q, m)
    {
      NotBothIsReceived(cfg, g, s, rep, c, q, m);
    }
  }

  lemma NotBothIsReceived(cfg: Config, g: nat, s: Group, rep: Replica, c: int, q: int, m: u64)
    requires cfg.ngroup > 0 && Matters(cfg, g, c, q) && q in rep.metas && m < rep.applied <= |s.log| <= NO_CURSOR
    requires MetasInv(Knows(cfg, s), g, rep.applied, q, rep.metas[q]) && CheckpointInv(Knows(cfg, s), g, rep.cp)
    requires m !in rep.metas[q] || m < After(rep.cp)
    ensures Received(cfg, s, c, q, m)
  {
    if m < After(rep.cp) { assert Cursor(Knows(cfg, s), [], c, q, rep.cp); }
    assert At(s.log, q, m) != [] ==> Has(Knows(cfg, s), [], c, q, m);
  }

  lemma PushOntoHolding(log: Log, q: int, lo: nat, hi: nat)
    requires lo <= hi < |log| <= NO_CURSOR
    ensures PushCursor(Holding(log, q, lo, hi), hi) == Holding(log, q, lo, hi) + [hi]
  {
    HoldingHolds(log, q, lo, hi);
    hide Holding, Sorted, ItemsAt;
    PushAbove(Holding(log, q, lo, hi), hi);
  }

  // ---------------------------------------------------------------- stored prevs over runs

  ghost predicate Names(inst: Instance, c: int, q: int) {
    exists v, d, e :: v in inst && v.StoreValue? && v.args.sync.Some?
      && d in v.args.sync.value && e in d.groups && d.queueId == q && e.groupId == c
  }

  /** The Gets in progress for a group and a queue. */
  function Pending(rep: Replica, c: int, q: int): set<int> {
    set id | id in rep.gets && rep.gets[id].c == c && rep.gets[id].q == q
  }

  /** Gets of replica `r` that began before another Get of the same pair stored its prev, or before a
      replicated value that lists the pair was executed. */
  ghost function Overtaken(cfg: Config, g: nat, s: Group, step: Step, r: int, c: int, q: int, late: set<int>): set<int>
    requires cfg.ngroup > 0 && Enabled(cfg, g, s, step) && r in s.replicas
  {
    match step
    case GetBegin(r', id, _) => if r' == r then late - {id} else late
    case GetStorePrev(r', id) =>
      if r' == r && id in Pending(s.replicas[r], c, q) then late + Pending(s.replicas[r], c, q) else late
    case Execute(r') =>
      if r' == r && Names(s.log[s.replicas[r].applied], c, q) then late + Pending(s.replicas[r], c, q) else late
    case _ => late
  }

  /** No overtaken Get of the pair stores its prev. */
  ghost predicate InOrder(s: Group, step: Step, r: int, c: int, q: int, late: set<int>)
    requires r in s.replicas
  {
    !(step.GetStorePrev? && step.r == r && step.id in late && step.id in Pending(s.replicas[r], c, q))
  }

  ghost predicate Orderly(cfg: Config, g: nat, s: Group, steps: seq<Step>, r: int, c: int, q: int, late: set<int>)
    requires cfg.ngroup > 0 && Runs(cfg, g, s, steps) && r in s.replicas
    decreases |steps|
  {
    steps != [] ==>
      && InOrder(s, steps[0], r, c, q, late)
      && Orderly(cfg, g, Do(cfg, g, s, steps[0]), steps[1..], r, c, q, Overtaken(cfg, g, s, steps[0], r, c, q, late))
  }

  ghost predicate PrevUp(a: View, b: View, c: int, q: int) {
    (c, q) in a && a[(c, q)].prevMagic ==> (c, q) in b && b[(c, q)].prevMagic && a[(c, q)].prev <= b[(c, q)].prev
  }

  /** A Get that was not overtaken holds a prev that is not behind the stored one. */
  ghost predicate UpToDate(rep: Replica, c: int, q: int, late: set<int>) {
    (c, q) in rep.view && rep.view[(c, q)].prevMagic ==>
      forall id :: id in Pending(rep, c, q) && id !in late && !rep.gets[id].prevStored ==>
        rep.view[(c, q)].prev <= rep.gets[id].prev
  }

  lemma {:induction false} GroupsMoveUp(view: View, p: int, groups: seq<GroupDetail>, c: int, q: int)
    ensures PrevUp(view, SyncGroups(view, p, groups), c, q)
    ensures (c, q) in view && (p == q ==> forall e :: e in groups ==> e.groupId != c) ==>
      SyncGroups(view, p, groups)[(c, q)] == view[(c, q)]
    decreases groups
  {
    if groups != [] {
      var key := (groups[0].groupId, p);
      var v := if key in view then view[key := SyncItem(view[key], groups[0].prev)] else view;
      assert groups[0] in groups;
      GroupsMoveUp(v, p, groups[1..], c, q);
    }
  }

  lemma {:induction false} SyncMovesUp(view: View, info: SyncCtrlInfo, c: int, q: int)
    ensures PrevUp(view, Sync(view, info), c, q)
    ensures (c, q) in view && (forall d, e :: d in info && e in d.groups && d.queueId == q ==> e.groupId != c) ==>
      Sync(view, info)[(c, q)] == view[(c, q)]
    decreases info
  {
    if info != [] {
      assert info[0] in info;
      GroupsMoveUp(view, info[0].queueId, info[0].groups, c, q);
      SyncMovesUp(SyncGroups(view, info[0].queueId, info[0].groups), info[1..], c, q);
    }
  }

  /** Executing never moves a stored prev back, and leaves it alone unless a value lists the pair. */
  lemma {:induction false} InstanceMovesUp(cfg: Config, metas: MetaView, view: View, cursor: u64, inst: Instance,
      c: int, q: int)
    ensures var view' := ExecuteInstance(cfg, metas, view, cursor, inst).1;
      && PrevUp(view, view', c, q) && view'.Keys == view.Keys
      && ((c, q) in view && !Names(inst, c, q) ==> view'[(c, q)] == view[(c, q)])
    decreases inst
  {
    if inst != [] {
      var v := inst[0];
      var (m, w) := if v.StoreValue? then ExecuteArgs(cfg, metas, view, cursor, v.args) else (metas, view);
      assert v in inst;
      if v.StoreValue? && v.args.sync.Some? { SyncMovesUp(view, v.args.sync.value, c, q); }
      hide Sync;
      InstanceMovesUp(cfg, m, w, cursor, inst[1..], c, q);
      if Names(inst[1..], c, q) { TailNames(inst, c, q); }
    }
  }

  lemma TailNames(inst: Instance, c: int, q: int)
    requires inst != [] && Names(inst[1..], c, q)
    ensures Names(inst, c, q)
  {
    var v, d, e :| v in inst[1..] && v.StoreValue? && v.args.sync.Some?
      && d in v.args.sync.value && e in d.groups && d.queueId == q && e.groupId == c;
    assert v in inst;
  }

  lemma StartIsNotBehind(item: CursorItem, cli: SyncCtrls.Cursors)
    ensures item.prevMagic ==> item.prev <= StartOf(item, cli).prev
  {
  }

  lemma StepMovesPrevUp(cfg: Config, g: nat, s: Group, step: Step, r: int, c: int, q: int, late: set<int>)
    requires cfg.ngroup > 0 && Enabled(cfg, g, s, step) && r in s.replicas && InOrder(s, step, r, c, q, late)
    requires UpToDate(s.replicas[r], c, q, late)
    ensures var t := Do(cfg, g, s, step);
      && r in t.replicas && PrevUp(s.replicas[r].view, t.replicas[r].view, c, q)
      && UpToDate(t.replicas[r], c, q, Overtaken(cfg, g, s, step, r, c, q, late))
  {
    if step.Execute? {
      var rep := s.replicas[step.r];
      InstanceMovesUp(cfg, rep.metas, rep.view, rep.applied, s.log[rep.applied], c, q);
      hide ExecuteInstance, Names;
    } else if step.GetBegin? {
      var cl := s.clients[step.client];
      StartIsNotBehind(s.replicas[step.r].view[(cl.c, cl.q)], Request(cl));
      hide StartOf, Request;
    } else if step.GetStorePrev? || step.GetStoreNext? {
      StoreMovesPrevUp(cfg, g, s, step, r, c, q, late);
    } else if step.GetSample? || step.GetTurn? || step.GetAbort? {
      GetMovesPrevUp(cfg, g, s, step, r, c, q, late);
    } else {
      OtherMovesPrevUp(cfg, g, s, step, r, c, q, late);
    }
  }

  lemma GetMovesPrevUp(cfg: Config, g: nat, s: Group, step: Step, r: int, c: int, q: int, late: set<int>)
    requires cfg.ngroup > 0 && Enabled(cfg, g, s, step) && r in s.replicas
    requires UpToDate(s.replicas[r], c, q, late) && (step.GetSample? || step.GetTurn? || step.GetAbort?)
    ensures var t := Do(cfg, g, s, step);
      && r in t.replicas && PrevUp(s.replicas[r].view, t.replicas[r].view, c, q)
      && UpToDate(t.replicas[r], c, q, Overtaken(cfg, g, s, step, r, c, q, late))
  {
    hide TurnOf, Sorted;
  }

  lemma StoreMovesPrevUp(cfg: Config, g: nat, s: Group, step: Step, r: int, c: int, q: int, late: set<int>)
    requires cfg.ngroup > 0 && Enabled(cfg, g, s, step) && r in s.replicas && InOrder(s, step, r, c, q, late)
    requires UpToDate(s.replicas[r], c, q, late) && (step.GetStorePrev? || step.GetStoreNext?)
    ensures var t := Do(cfg, g, s, step);
      && r in t.replicas && PrevUp(s.replicas[r].view, t.replicas[r].view, c, q)
      && UpToDate(t.replicas[r], c, q, Overtaken(cfg, g, s, step, r, c, q, late))
  {
  }

  lemma OtherMovesPrevUp(cfg: Config, g: nat, s: Group, step: Step, r: int, c: int, q: int, late: set<int>)
    requires cfg.ngroup > 0 && Enabled(cfg, g, s, step) && r in s.replicas && InOrder(s, step, r, c, q, late)
    requires UpToDate(s.replicas[r], c, q, late) && !step.Execute? && !step.GetBegin?
    requires !step.GetSample? && !step.GetTurn? && !step.GetStorePrev? && !step.GetStoreNext? && !step.GetAbort?
    ensures var t := Do(cfg, g, s, step);
      && r in t.replicas && PrevUp(s.replicas[r].view, t.replicas[r].view, c, q)
      && UpToDate(t.replicas[r], c, q, Overtaken(cfg, g, s, step, r, c, q, late))
  {
    hide ScanFrom, ScanOne, AllSorted;
  }

  lemma {:induction false} RunMovesPrevUp(cfg: Config, g: nat, s: Group, steps: seq<Step>, r: int, c: int, q: int,
      late: set<int>)
    requires cfg.ngroup > 0 && Runs(cfg, g, s, steps) && r in s.replicas && Orderly(cfg, g, s, steps, r, c, q, late)
    requires UpToDate(s.replicas[r], c, q, late)
    ensures var t := Final(cfg, g, s, steps); r in t.replicas && PrevUp(s.replicas[r].view, t.replicas[r].view, c, q)
    decreases |steps|
  {
    if steps != [] {
      StepMovesPrevUp(cfg, g, s, steps[0], r, c, q, late);
      hide Do, Enabled, UpToDate, Overtaken;
      RunMovesPrevUp(cfg, g, Do(cfg, g, s, steps[0]), steps[1..],
        r, c, q, Overtaken(cfg, g, s, steps[0], r, c, q, late));
    }
  }

  /** From any state whatever, a stored prev never moves back, as long as between the beginning of a Get of
      the pair and its storing the prev no other Get of the pair stores one and no replicated value that
      lists the pair is executed. StorePrevLimits shows that neither can be left out. */
  lemma StoredPrevNeverDecreases(cfg: Config, g: nat, s: Group, steps: seq<Step>, r: int, c: int, q: int)
    requires cfg.ngroup > 0 && Runs(cfg, g, s, steps) && r in s.replicas
    requires Orderly(cfg, g, s, steps, r, c, q, Pending(s.replicas[r], c, q))
    ensures var t := Final(cfg, g, s, steps); r in t.replicas && PrevUp(s.replicas[r].view, t.replicas[r].view, c, q)
  {
    RunMovesPrevUp(cfg, g, s, steps, r, c, q, Pending(s.replicas[r], c, q));
  }
}
