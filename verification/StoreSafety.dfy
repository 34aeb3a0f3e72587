/** At-least-once delivery over whole runs of StoreRun. */
module StoreSafety {
  import opened CursorId
  import opened Numbers
  import opened Options
  import opened StoreItems
  import opened StoreLog
  import opened StoreMetas
  import opened SyncCtrls
  import opened BaseMgrs
  import opened KeepSync
  import opened StoreRun

  // ---------------------------------------------------------------- growing logs and receipts

  lemma SyncGrows(k: Known, l: Known, g: nat, info: SyncCtrlInfo)
    requires k.cfg.ngroup > 0 && Grows(k, l) && SyncInv(k, g, info)
    ensures SyncInv(l, g, info)
  {
    forall d, e | d in info && e in d.groups && Matters(k.cfg, g, e.groupId, d.queueId)
      ensures UpTo(l, [], e.groupId, d.queueId, e.prev)
    {
      assert UpTo(k, [], e.groupId, d.queueId, e.prev);
      CursorGrows(k, l, [], e.groupId, d.queueId, e.prev);
    }
  }

  lemma MetasGrow(k: Known, l: Known, g: nat, applied: nat, q: int, metas: seq<u64>)
    requires k.cfg.ngroup > 0 && Grows(k, l) && MetasInv(k, g, applied, q, metas) && applied <= |k.log|
    ensures MetasInv(l, g, applied, q, metas)
  {
  }

  lemma GetGrows(k: Known, l: Known, g: nat, trunc: nat, cp: u64, p: PendingGet)
    requires k.cfg.ngroup > 0 && Grows(k, l) && GetInv(k, g, trunc, cp, p)
    ensures GetInv(l, g, trunc, cp, p)
  {
    if Matters(k.cfg, g, p.c, p.q) {
      CursorGrows(k, l, [], p.c, p.q, p.prev);
      CursorGrows(k, l, p.items, p.c, p.q, p.next);
    }
  }

  lemma ViewGrows(k: Known, l: Known, g: nat, view: View)
    requires k.cfg.ngroup > 0 && Grows(k, l) && ViewInv(k, g, view)
    ensures ViewInv(l, g, view)
  {
    forall c, q | Matters(l.cfg, g, c, q) && (c, q) in view && view[(c, q)].prevMagic
      ensures UpTo(l, [], c, q, view[(c, q)].prev)
    {
      assert UpTo(k, [], c, q, view[(c, q)].prev);
      CursorGrows(k, l, [], c, q, view[(c, q)].prev);
    }
  }

  lemma CheckpointGrows(k: Known, l: Known, g: nat, cp: u64)
    requires k.cfg.ngroup > 0 && Grows(k, l) && CheckpointInv(k, g, cp)
    ensures CheckpointInv(l, g, cp)
  {
    forall c, q | Matters(l.cfg, g, c, q) ensures Cursor(l, [], c, q, cp) {
      assert Matters(k.cfg, g, c, q);
      CursorGrows(k, l, [], c, q, cp);
    }
  }

  lemma ReplicaGrows(k: Known, l: Known, g: nat, rep: Replica)
    requires k.cfg.ngroup > 0 && Grows(k, l) && ReplicaInv(k, g, rep)
    ensures ReplicaInv(l, g, rep)
  {
    hide MetasInv, GetInv, ViewInv, CheckpointInv;
    CheckpointGrows(k, l, g, rep.cp);
    ViewGrows(k, l, g, rep.view);
    forall q | q in rep.metas && InGroup(l.cfg, g, q) ensures MetasInv(l, g, rep.applied, q, rep.metas[q]) {
      MetasGrow(k, l, g, rep.applied, q, rep.metas[q]);
    }
    forall id | id in rep.gets ensures GetInv(l, g, rep.trunc, rep.cp, rep.gets[id]) {
      GetGrows(k, l, g, rep.trunc, rep.cp, rep.gets[id]);
    }
  }

  // ---------------------------------------------------------------- executing an instance

  lemma PushTwice(s: seq<u64>, c: u64)
    ensures PushCursor(PushCursor(s, c), c) == PushCursor(s, c)
  {
  }

  /** An instance adds its own id to the metas of exactly the queues it holds items for. */
  lemma {:induction false} InstancePushesOnce(cfg: Config, metas: MetaView, view: View, cursor: u64, inst: Instance,
      q: int)
    requires q in metas
    ensures var m := ExecuteInstance(cfg, metas, view, cursor, inst).0;
      && m.Keys == metas.Keys
      && m[q] == if q in cfg.pubQueues && ItemsAt(inst, q, cursor) != [] then PushCursor(metas[q], cursor) else metas[q]
    decreases inst
  {
    if inst != [] {
      var (m, v) := if inst[0].StoreValue? then ExecuteArgs(cfg, metas, view, cursor, inst[0].args) else (metas, view);
      InstancePushesOnce(cfg, m, v, cursor, inst[1..], q);
      PushTwice(metas[q], cursor);
    }
  }

  lemma {:induction false} GroupsKeepView(k: Known, g: nat, view: View, q: int, groups: seq<GroupDetail>)
    requires k.cfg.ngroup > 0 && ViewInv(k, g, view)
    requires forall e :: e in groups && Matters(k.cfg, g, e.groupId, q) ==> UpTo(k, [], e.groupId, q, e.prev)
    ensures ViewInv(k, g, SyncGroups(view, q, groups))
    decreases groups
  {
    if groups != [] {
      var e := groups[0];
      assert e in groups;
      var key := (e.groupId, q);
      var v := if key in view then view[key := SyncItem(view[key], e.prev)] else view;
      hide UpTo;
      assert ViewInv(k, g, v);
      GroupsKeepView(k, g, v, q, groups[1..]);
    }
  }

  lemma {:induction false} SyncKeepsView(k: Known, g: nat, view: View, info: SyncCtrlInfo)
    requires k.cfg.ngroup > 0 && ViewInv(k, g, view) && SyncInv(k, g, info)
    ensures ViewInv(k, g, Sync(view, info))
    decreases info
  {
    if info != [] {
      hide UpTo, ViewInv;
      assert info[0] in info;
      GroupsKeepView(k, g, view, info[0].queueId, info[0].groups);
      assert SyncInv(k, g, info[1..]);
      SyncKeepsView(k, g, SyncGroups(view, info[0].queueId, info[0].groups), info[1..]);
    }
  }

  lemma {:induction false} InstanceKeepsView(k: Known, g: nat, metas: MetaView, view: View, cursor: u64, inst: Instance)
    requires k.cfg.ngroup > 0 && ViewInv(k, g, view)
    requires forall v :: v in inst && v.StoreValue? && v.args.sync.Some? ==> SyncInv(k, g, v.args.sync.value)
    ensures ViewInv(k, g, ExecuteInstance(k.cfg, metas, view, cursor, inst).1)
    decreases inst
  {
    if inst != [] {
      hide ViewInv, SyncInv;
      assert inst[0] in inst;
      if inst[0].StoreValue? && inst[0].args.sync.Some? { SyncKeepsView(k, g, view, inst[0].args.sync.value); }
      var (m, v) := if inst[0].StoreValue?
        then ExecuteArgs(k.cfg, metas, view, cursor, inst[0].args) else (metas, view);
      InstanceKeepsView(k, g, m, v, cursor, inst[1..]);
    }
  }

  lemma PushKeepsMetas(k: Known, g: nat, applied: nat, q: int, metas: seq<u64>, metas': seq<u64>)
    requires ValidConfig(k.cfg) && MetasInv(k, g, applied, q, metas)
    requires applied < |k.log| <= NO_CURSOR
    requires metas' == if q in k.cfg.pubQueues && At(k.log, q, applied) != [] then PushCursor(metas, applied) else metas
    ensures MetasInv(k, g, applied + 1, q, metas')
  {
    hide At, Has;
    PushAbove(metas, applied);
    hide PushCursor, Sorted;
    forall c, i | Matters(k.cfg, g, c, q) && 0 <= i < applied + 1 && At(k.log, q, i) != []
      ensures i in metas' || Has(k, [], c, q, i)
    {
      assert i < applied ==> i in metas || Has(k, [], c, q, i);
    }
  }

  lemma ExecuteKeepsInv(k: Known, g: nat, rep: Replica)
    requires ValidConfig(k.cfg) && LogInv(k, g) && ReplicaInv(k, g, rep) && rep.applied < |k.log|
    ensures var (metas, view) := ExecuteInstance(k.cfg, rep.metas, rep.view, rep.applied, k.log[rep.applied]);
      ReplicaInv(k, g, rep.(applied := rep.applied + 1, metas := metas, view := view))
  {
    var inst := k.log[rep.applied];
    var (metas, view) := ExecuteInstance(k.cfg, rep.metas, rep.view, rep.applied, inst);
    forall v | v in inst && v.StoreValue? && v.args.sync.Some? ensures SyncInv(k, g, v.args.sync.value) {
      assert v in k.log[rep.applied];
    }
    hide ViewInv, SyncInv, MetasInv, GetInv, CheckpointInv, ExecuteInstance, PassInv;
    InstanceKeepsView(k, g, rep.metas, rep.view, rep.applied, inst);
    forall q | q in rep.metas ensures q in metas && Sorted(metas[q]) {
      InstancePushesOnce(k.cfg, rep.metas, rep.view, rep.applied, inst, q);
    }
    forall q | q in rep.metas && InGroup(k.cfg, g, q)
      ensures q in metas && MetasInv(k, g, rep.applied + 1, q, metas[q])
    {
      InstancePushesOnce(k.cfg, rep.metas, rep.view, rep.applied, inst, q);
      PushKeepsMetas(k, g, rep.applied, q, rep.metas[q], metas[q]);
    }
    assert metas.Keys == rep.metas.Keys by { InstanceKeepsKeys(k.cfg, rep.metas, rep.view, rep.applied, inst); }
    if rep.pass.Some? {
      forall q | q in rep.metas ensures metas[q] == rep.metas[q] || metas[q] == PushCursor(rep.metas[q], rep.applied) {
        InstancePushesOnce(k.cfg, rep.metas, rep.view, rep.applied, inst, q);
      }
      ExecuteKeepsPass(k.cfg, g, rep.applied, rep.metas, metas, rep.pass.value);
    }
  }

  lemma ExecuteKeepsPass(cfg: Config, g: nat, applied: u64, metas: MetaView, metas': MetaView, pass: Scanning)
    requires cfg.ngroup > 0 && PassInv(cfg, g, applied, metas, pass) && metas'.Keys == metas.Keys
    requires forall q :: q in metas ==> metas'[q] == metas[q] || metas'[q] == PushCursor(metas[q], applied)
    ensures PassInv(cfg, g, applied + 1, metas', pass)
  {
  }

  lemma {:induction false} InstanceKeepsKeys(cfg: Config, metas: MetaView, view: View, cursor: u64, inst: Instance)
    ensures ExecuteInstance(cfg, metas, view, cursor, inst).0.Keys == metas.Keys
    decreases inst
  {
    if inst != [] {
      var (m, v) := if inst[0].StoreValue? then ExecuteArgs(cfg, metas, view, cursor, inst[0].args) else (metas, view);
      InstanceKeepsKeys(cfg, m, v, cursor, inst[1..]);
    }
  }

  // ---------------------------------------------------------------- a checkpoint pass

  /** Only what every valid group has acknowledged is erased. */
  lemma ErasedWasAcknowledged(cfg: Config, view: View, q: int, metas: seq<u64>, c: int, i: u64)
    requires ValidConfig(cfg) && Sorted(metas)
    requires (q, c) in cfg.valid && (c, q) in view && i in metas && i !in Kept(cfg, view, q, metas)
    ensures view[(c, q)].prevMagic && i <= view[(c, q)].prev
  {
    KeptIsLeft(cfg, view, q, metas);
    hide Kept;
    assert Waits(cfg, view, q, c);
    assert !IsBelow(cfg, view, q, c, i);
  }

  lemma ErasedWasReceived(k: Known, g: nat, view: View, q: int, metas: seq<u64>, c: int, i: u64)
    requires ValidConfig(k.cfg) && ViewInv(k, g, view) && Sorted(metas)
    requires Matters(k.cfg, g, c, q) && i in metas && i !in Kept(k.cfg, view, q, metas)
    ensures Has(k, [], c, q, i)
  {
    forall key | key in view && key.1 == q && (q, key.0) in k.cfg.valid && view[key].prevMagic
      ensures view[key].prev != NO_CURSOR
    {
      assert Matters(k.cfg, g, key.0, q);
      assert view[(key.0, q)].prevMagic;
    }
    assert (c, q) in view;
    ErasedWasAcknowledged(k.cfg, view, q, metas, c, i);
  }

  lemma KeptIsSuffix(cfg: Config, view: View, q: int, metas: seq<u64>)
    requires Sorted(metas)
    ensures Sorted(Kept(cfg, view, q, metas))
    ensures forall m :: m in Kept(cfg, view, q, metas) ==> m in metas
  {
  }

  ghost predicate OnlyErased(cfg: Config, view: View, metas: MetaView, pass: Pass)
    requires AllSorted(metas) && pass.metas.Keys == metas.Keys
  {
    forall p :: p in metas ==> pass.metas[p] == metas[p] || pass.metas[p] == Kept(cfg, view, p, metas[p])
  }

  ghost predicate BelowFronts(cfg: Config, q: nat, pass: Pass)
    requires cfg.ngroup > 0
  {
    forall p :: p in pass.metas && q <= p < cfg.nqueue && p % cfg.ngroup == q % cfg.ngroup && pass.metas[p] != [] ==>
      pass.cp != NO_CURSOR && pass.cp < pass.metas[p][0]
  }

  /** What a pass leaves behind for the queues from `q` on. */
  ghost predicate Scanned(cfg: Config, view: View, metas: MetaView, q: nat, cp: u64, pass: Pass)
    requires cfg.ngroup > 0 && AllSorted(metas) && pass.metas.Keys == metas.Keys
  {
    && OnlyErased(cfg, view, metas, pass)
    && (pass.finished ==> pass.cp == NO_CURSOR)
    && (!pass.finished ==>
         && (cp != NO_CURSOR ==> pass.cp != NO_CURSOR && pass.cp <= cp)
         && BelowFronts(cfg, q, pass)
         && (pass.cp != NO_CURSOR ==> pass.cp == cp || Fronted(cfg, metas, q, pass.cp)))
  }

  /** The proposal is one below some meta. */
  ghost predicate Fronted(cfg: Config, metas: MetaView, q: nat, cp: u64)
    requires cfg.ngroup > 0
  {
    exists p, m :: p in metas && q <= p < cfg.nqueue && p % cfg.ngroup == q % cfg.ngroup && m in metas[p] && cp + 1 == m
  }

  lemma {:induction false} ScanFromScans(cfg: Config, view: View, metas: MetaView, q: nat, cp: u64)
    requires cfg.ngroup > 0 && AllSorted(metas)
    requires forall p :: 0 <= p < cfg.nqueue ==> p in metas
    ensures Scanned(cfg, view, metas, q, cp, ScanFrom(cfg, view, metas, q, cp))
    decreases cfg.nqueue - q
  {
    hide Kept, Sorted, ScanOne, OnlyErased, BelowFronts, Fronted, Scanned, AllSorted;
    if q < cfg.nqueue {
      var one := ScanOne(cfg, view, metas, q, cp);
      if !one.finished {
        ScanFromScans(cfg, view, one.metas, q + cfg.ngroup, one.cp);
        StepScans(cfg, view, metas, q, cp, one, ScanFrom(cfg, view, one.metas, q + cfg.ngroup, one.cp));
      } else {
        FinishedScans(cfg, view, metas, q, cp);
      }
    } else {
      NothingScans(cfg, view, metas, q, cp);
    }
  }

  lemma FinishedScans(cfg: Config, view: View, metas: MetaView, q: nat, cp: u64)
    requires cfg.ngroup > 0 && AllSorted(metas) && q in metas
    requires ScanOne(cfg, view, metas, q, cp).finished
    ensures Scanned(cfg, view, metas, q, cp, ScanOne(cfg, view, metas, q, cp))
  {
  }

  lemma NothingScans(cfg: Config, view: View, metas: MetaView, q: nat, cp: u64)
    requires cfg.ngroup > 0 && AllSorted(metas) && cfg.nqueue <= q
    ensures Scanned(cfg, view, metas, q, cp, Pass(metas, cp, false))
  {
  }

  lemma StepOnlyErases(cfg: Config, view: View, metas: MetaView, q: nat, one: Pass, pass: Pass)
    requires AllSorted(metas) && AllSorted(one.metas) && q in metas
    requires one.metas == metas[q := Kept(cfg, view, q, metas[q])]
    requires pass.metas.Keys == metas.Keys && OnlyErased(cfg, view, one.metas, pass)
    ensures OnlyErased(cfg, view, metas, pass) && pass.metas[q] == one.metas[q]
  {
  }

  lemma StepFronts(cfg: Config, view: View, metas: MetaView, q: nat, one: Pass, cp: u64)
    requires cfg.ngroup > 0 && AllSorted(metas) && q in metas && q < cfg.nqueue
    requires one.metas == metas[q := Kept(cfg, view, q, metas[q])]
    requires Fronted(cfg, one.metas, q + cfg.ngroup, cp)
    ensures Fronted(cfg, metas, q, cp)
  {
    NextResidue(q, q, cfg.ngroup);
    KeptIsSuffix(cfg, view, q, metas[q]);
    hide Kept, Sorted;
    var p, m :| p in one.metas && q + cfg.ngroup <= p < cfg.nqueue
      && p % cfg.ngroup == (q + cfg.ngroup) % cfg.ngroup && m in one.metas[p] && cp + 1 == m;
    assert m in metas[p];
  }

  lemma StepBelowFronts(cfg: Config, metas: MetaView, q: nat, pass: Pass)
    requires cfg.ngroup > 0 && q in pass.metas && BelowFronts(cfg, q + cfg.ngroup, pass)
    requires pass.metas[q] != [] ==> pass.cp != NO_CURSOR && pass.cp < pass.metas[q][0]
    ensures BelowFronts(cfg, q, pass)
  {
    forall p | p in pass.metas && q <= p < cfg.nqueue && p % cfg.ngroup == q % cfg.ngroup && pass.metas[p] != []
      ensures pass.cp != NO_CURSOR && pass.cp < pass.metas[p][0]
    {
      NextResidue(q, p, cfg.ngroup);
    }
  }

  lemma StepScans(cfg: Config, view: View, metas: MetaView, q: nat, cp: u64, one: Pass, pass: Pass)
    requires cfg.ngroup > 0 && AllSorted(metas) && q < cfg.nqueue && q in metas
    requires one == ScanOne(cfg, view, metas, q, cp) && !one.finished
    requires pass.metas.Keys == metas.Keys && Scanned(cfg, view, one.metas, q + cfg.ngroup, one.cp, pass)
    ensures Scanned(cfg, view, metas, q, cp, pass)
  {
    StepOnlyErases(cfg, view, metas, q, one, pass);
    KeptIsSuffix(cfg, view, q, metas[q]);
    hide Kept, Sorted, AllSorted, OnlyErased, Fronted, BelowFronts;
    if !pass.finished {
      StepBelowFronts(cfg, metas, q, pass);
      if pass.cp != NO_CURSOR && pass.cp != cp {
        if pass.cp == one.cp {
          FrontIsFronted(cfg, metas, q, one.metas[q], pass.cp);
        } else {
          StepFronts(cfg, view, metas, q, one, pass.cp);
        }
      }
    }
  }

  lemma FrontIsFronted(cfg: Config, metas: MetaView, q: nat, kept: seq<u64>, cp: u64)
    requires cfg.ngroup > 0 && q in metas && q < cfg.nqueue
    requires kept != [] && kept[0] in metas[q] && cp + 1 == kept[0]
    ensures Fronted(cfg, metas, q, cp)
  {
  }

  lemma ScannedIsInGroup(cfg: Config, g: nat, q: int)
    requires g < cfg.ngroup && 0 <= q < cfg.nqueue && q % cfg.ngroup == g % cfg.ngroup
    ensures InGroup(cfg, g, q)
  {
  }

  /** The metas of a group's queues were executed. */
  ghost predicate Executed(cfg: Config, g: nat, applied: nat, metas: MetaView)
    requires cfg.ngroup > 0
  {
    forall q, m :: q in metas && InGroup(cfg, g, q) && m in metas[q] ==> m < applied
  }

  /** None of them is at or below `cp`. */
  ghost predicate PassesNoMeta(cfg: Config, g: nat, metas: MetaView, cp: u64)
    requires cfg.ngroup > 0
  {
    forall q, m :: q in metas && InGroup(cfg, g, q) && m in metas[q] ==> After(cp) <= m
  }

  /** The checkpoint of a pass that is one step moves forward and stays behind what was executed; when it
      moves, it is below every meta left. */
  lemma CheckpointIsBelowMetas(cfg: Config, g: nat, applied: nat, cp: u64, view: View, metas: MetaView, pass: Pass)
    requires g < cfg.ngroup && AllSorted(metas) && Executed(cfg, g, applied, metas)
    requires After(cp) <= applied <= NO_CURSOR
    requires pass.metas.Keys == metas.Keys && AllSorted(pass.metas) && Scanned(cfg, view, metas, g, NO_CURSOR, pass)
    ensures var cp' := Dump(cp, Proposed(pass, applied));
      && After(cp) <= After(cp') <= applied && Executed(cfg, g, applied, pass.metas)
      && (cp' == cp || PassesNoMeta(cfg, g, pass.metas, cp'))
      && (PassesNoMeta(cfg, g, metas, cp) ==> PassesNoMeta(cfg, g, pass.metas, cp'))
  {
    var cp' := Dump(cp, Proposed(pass, applied));
    if !pass.finished && pass.cp != NO_CURSOR {
      var p, m :| p in metas && g <= p < cfg.nqueue
        && p % cfg.ngroup == g % cfg.ngroup && m in metas[p] && pass.cp + 1 == m;
      ScannedIsInGroup(cfg, g, p);
    }
    forall q, m | q in pass.metas && InGroup(cfg, g, q) && m in pass.metas[q]
      ensures m < applied && (cp' != cp ==> After(cp') <= m) && m in metas[q]
    {
      GroupStart(cfg, g, q);
      KeptIsSuffix(cfg, view, q, metas[q]);
      assert pass.metas[q][0] <= m;
    }
  }

  lemma PassKeepsMetas(k: Known, g: nat, rep: Replica, pass: Pass, q: int)
    requires ValidConfig(k.cfg) && g < k.cfg.ngroup && ViewInv(k, g, rep.view) && AllSorted(rep.metas)
    requires q in rep.metas && InGroup(k.cfg, g, q) && MetasInv(k, g, rep.applied, q, rep.metas[q])
    requires pass.metas.Keys == rep.metas.Keys && AllSorted(pass.metas) && OnlyErased(k.cfg, rep.view, rep.metas, pass)
    ensures MetasInv(k, g, rep.applied, q, pass.metas[q])
  {
    ErasingKeepsMetas(k, g, rep.applied, rep.view, q, rep.metas[q]);
    hide MetasInv, Kept;
  }

  lemma CheckpointWasReceived(k: Known, g: nat, applied: nat, cp: u64, metas: MetaView)
    requires k.cfg.ngroup > 0 && applied <= |k.log| <= NO_CURSOR && After(cp) <= applied
    requires forall q :: InGroup(k.cfg, g, q) ==> q in metas && MetasInv(k, g, applied, q, metas[q])
    requires PassesReceived(k, g, metas, cp)
    ensures CheckpointInv(k, g, cp)
  {
    hide MetasInv;
    forall c, q, i: nat | Matters(k.cfg, g, c, q) && i < After(cp) ensures Has(k, [], c, q, i) {
      CoveredWasReceived(k, g, applied, metas[q], c, q, i);
    }
  }

  lemma CoveredWasReceived(k: Known, g: nat, applied: nat, metas: seq<u64>, c: int, q: int, i: nat)
    requires k.cfg.ngroup > 0 && Matters(k.cfg, g, c, q) && MetasInv(k, g, applied, q, metas) && i < applied
    requires i in metas ==> Has(k, [], c, q, i)
    ensures Has(k, [], c, q, i)
  {
  }

  /** Metas that lie at or below the checkpoint that stays were received. */
  lemma CheckpointPassesReceived(k: Known, g: nat, metas: MetaView, cp: u64)
    requires k.cfg.ngroup > 0 && CheckpointInv(k, g, cp)
    ensures PassesReceived(k, g, metas, cp)
  {
    forall c, q, m: nat | Matters(k.cfg, g, c, q) && m < After(cp) ensures Has(k, [], c, q, m) {
      assert Cursor(k, [], c, q, cp);
    }
  }

  lemma NoMetaPassesReceived(k: Known, g: nat, metas: MetaView, cp: u64)
    requires k.cfg.ngroup > 0 && PassesNoMeta(k.cfg, g, metas, cp)
    ensures PassesReceived(k, g, metas, cp)
  {
  }

  /** Erasing what was acknowledged and writing a checkpoint that passes nothing still waited for keep the
      invariant. */
  lemma CheckpointKeepsInv(k: Known, g: nat, rep: Replica, metas: MetaView, cp: u64)
    requires ValidConfig(k.cfg) && g < k.cfg.ngroup && |k.log| <= NO_CURSOR && ReplicaInv(k, g, rep)
    requires metas.Keys == rep.metas.Keys && AllSorted(metas) && After(rep.cp) <= After(cp) <= rep.applied
    requires forall q :: q in metas && InGroup(k.cfg, g, q) ==> MetasInv(k, g, rep.applied, q, metas[q])
    requires PassesReceived(k, g, metas, cp)
    ensures ReplicaInv(k, g, rep.(metas := metas, cp := cp, pass := None))
  {
    hide MetasInv, ViewInv, CheckpointInv, PassInv, PassesReceived;
    CheckpointWasReceived(k, g, rep.applied, cp, metas);
    forall id | id in rep.gets ensures GetInv(k, g, rep.trunc, cp, rep.gets[id]) {
      assert GetInv(k, g, rep.trunc, rep.cp, rep.gets[id]);
    }
  }

  lemma PassKeepsInv(k: Known, g: nat, rep: Replica)
    requires ValidConfig(k.cfg) && g < k.cfg.ngroup && |k.log| <= NO_CURSOR && ReplicaInv(k, g, rep)
    requires rep.pass.None?
    ensures var pass := ScanFrom(k.cfg, rep.view, rep.metas, g, NO_CURSOR);
      ReplicaInv(k, g, rep.(metas := pass.metas, cp := Dump(rep.cp, Proposed(pass, rep.applied))))
  {
    var pass := ScanFrom(k.cfg, rep.view, rep.metas, g, NO_CURSOR);
    ScanFromScans(k.cfg, rep.view, rep.metas, g, NO_CURSOR);
    var cp := Dump(rep.cp, Proposed(pass, rep.applied));
    CheckpointIsBelowMetas(k.cfg, g, rep.applied, rep.cp, rep.view, rep.metas, pass);
    if cp == rep.cp {
      CheckpointPassesReceived(k, g, pass.metas, cp);
    } else {
      NoMetaPassesReceived(k, g, pass.metas, cp);
    }
    hide MetasInv, ViewInv, CheckpointInv, ScanFrom, Proposed, Dump, PassesReceived, PassesNoMeta;
    forall q | q in pass.metas && InGroup(k.cfg, g, q) ensures MetasInv(k, g, rep.applied, q, pass.metas[q]) {
      PassKeepsMetas(k, g, rep, pass, q);
    }
    hide Scanned;
    CheckpointKeepsInv(k, g, rep, pass.metas, cp);
    assert rep.(metas := pass.metas, cp := cp, pass := None) == rep.(metas := pass.metas, cp := cp);
  }

  // ---------------------------------------------------------------- a pass interleaved with other steps

  lemma PassBeginKeepsInv(k: Known, g: nat, rep: Replica)
    requires k.cfg.ngroup > 0 && g < k.cfg.ngroup && ReplicaInv(k, g, rep)
    ensures ReplicaInv(k, g, rep.(pass := Some(Scanning(rep.applied, g, NO_CURSOR, false))))
  {
    hide MetasInv, ViewInv, CheckpointInv, GetInv;
    forall q | q in rep.metas && InGroup(k.cfg, g, q) ensures g <= q { GroupStart(k.cfg, g, q); }
  }

  lemma ScanOneKeepsPass(cfg: Config, g: nat, applied: nat, view: View, metas: MetaView, pass: Scanning)
    requires cfg.ngroup > 0 && g < cfg.ngroup && AllSorted(metas) && PassInv(cfg, g, applied, metas, pass)
    requires pass.q in metas && !pass.finished && forall m :: m in metas[pass.q] ==> m < applied
    ensures var one := ScanOne(cfg, view, metas, pass.q, pass.cp);
      PassInv(cfg, g, applied, one.metas, Scanning(pass.now, pass.q + cfg.ngroup, one.cp, one.finished))
  {
    var one := ScanOne(cfg, view, metas, pass.q, pass.cp);
    KeptIsSuffix(cfg, view, pass.q, metas[pass.q]);
    NextResidue(pass.q, pass.q, cfg.ngroup);
    var kept := one.metas[pass.q];
    assert kept != [] ==> kept[0] in metas[pass.q];
    if !one.finished {
      forall q, m | q in one.metas && InGroup(cfg, g, q) && q < pass.q + cfg.ngroup && m in one.metas[q]
        ensures pass.now <= m || (one.cp != NO_CURSOR && one.cp < m)
      {
        GroupStart(cfg, g, q);
        if q == pass.q {
          assert kept[0] <= m;
        } else {
          NextResidue(pass.q, q, cfg.ngroup);
          assert m in metas[q];
        }
      }
    }
  }

  lemma PassQueueKeepsInv(k: Known, g: nat, rep: Replica)
    requires ValidConfig(k.cfg) && g < k.cfg.ngroup && ReplicaInv(k, g, rep) && rep.pass.Some?
    requires rep.pass.value.q in rep.metas && !rep.pass.value.finished
    ensures var one := ScanOne(k.cfg, rep.view, rep.metas, rep.pass.value.q, rep.pass.value.cp);
      ReplicaInv(k, g, rep.(metas := one.metas,
        pass := Some(Scanning(rep.pass.value.now, rep.pass.value.q + k.cfg.ngroup, one.cp, one.finished))))
  {
    var q := rep.pass.value.q;
    var one := ScanOne(k.cfg, rep.view, rep.metas, q, rep.pass.value.cp);
    ScannedIsInGroup(k.cfg, g, q);
    assert MetasInv(k, g, rep.applied, q, rep.metas[q]);
    ScanOneKeepsPass(k.cfg, g, rep.applied, rep.view, rep.metas, rep.pass.value);
    hide PassInv, ViewInv, CheckpointInv, GetInv;
    if InGroup(k.cfg, g, q) {
      assert MetasInv(k, g, rep.applied, q, rep.metas[q]);
      ErasingKeepsMetas(k, g, rep.applied, rep.view, q, rep.metas[q]);
    }
    hide MetasInv, Kept;
  }

  lemma ErasingKeepsMetas(k: Known, g: nat, applied: nat, view: View, q: int, metas: seq<u64>)
    requires ValidConfig(k.cfg) && ViewInv(k, g, view) && MetasInv(k, g, applied, q, metas)
    ensures MetasInv(k, g, applied, q, Kept(k.cfg, view, q, metas))
  {
    KeptIsSuffix(k.cfg, view, q, metas);
    var kept := Kept(k.cfg, view, q, metas);
    hide Kept, ViewInv;
    forall c, i | Matters(k.cfg, g, c, q) && 0 <= i < applied && At(k.log, q, i) != []
      ensures i in kept || Has(k, [], c, q, i)
    {
      if i in metas && i !in kept { ErasedWasReceived(k, g, view, q, metas, c, i); }
    }
  }

  /** A proposal below the instance sampled at the start is below every meta left, whatever was executed
      while the pass went on. */
  lemma DumpIsBelowMetas(cfg: Config, g: nat, applied: nat, metas: MetaView, pass: Scanning)
    requires cfg.ngroup > 0 && PassInv(cfg, g, applied, metas, pass)
    requires (forall q :: q in metas ==> 0 <= q < cfg.nqueue) && (pass.q >= cfg.nqueue || pass.finished)
    requires pass.now < TWO_64 && After(PassProposes(pass)) <= pass.now
    ensures PassesNoMeta(cfg, g, metas, PassProposes(pass))
  {
  }

  /** A checkpoint written by an interleaved pass keeps the invariant when all it passes was received. */
  lemma PassDumpKeepsInv(k: Known, g: nat, rep: Replica)
    requires ValidConfig(k.cfg) && g < k.cfg.ngroup && |k.log| <= NO_CURSOR && ReplicaInv(k, g, rep) && rep.pass.Some?
    requires rep.pass.value.now < TWO_64
    requires PassesReceived(k, g, rep.metas, Dump(rep.cp, PassProposes(rep.pass.value)))
    ensures ReplicaInv(k, g, rep.(cp := Dump(rep.cp, PassProposes(rep.pass.value)), pass := None))
  {
    var cp := Dump(rep.cp, PassProposes(rep.pass.value));
    assert After(rep.cp) <= After(cp) <= rep.applied;
    hide PassProposes, Dump;
    CheckpointKeepsInv(k, g, rep, rep.metas, cp);
    assert rep.(metas := rep.metas, cp := cp, pass := None) == rep.(cp := cp, pass := None);
  }

  /** What a store can check before it writes the checkpoint: every meta it passes is at or below the stored
      prev of every valid group. */
  ghost predicate PassesAcknowledged(cfg: Config, g: nat, view: View, metas: MetaView, cp: u64)
    requires cfg.ngroup > 0
  {
    forall c, q, m: nat :: Matters(cfg, g, c, q) && q in metas && m in metas[q] && m < After(cp) ==>
      (c, q) in view && view[(c, q)].prevMagic && m <= view[(c, q)].prev
  }

  /** In every reachable state that check is enough, and so is a proposal below the instance sampled at the
      start of the pass. */
  lemma AcknowledgedDumpIsSafe(cfg: Config, g: nat, s: Group, r: int)
    requires ValidConfig(cfg) && g < cfg.ngroup && Inv(cfg, g, s) && Enabled(cfg, g, s, PassDump(r))
    requires var rep := s.replicas[r];
      || PassesAcknowledged(cfg, g, rep.view, rep.metas, Dump(rep.cp, PassProposes(rep.pass.value)))
      || After(PassProposes(rep.pass.value)) <= rep.pass.value.now
    ensures Safe(cfg, g, s, PassDump(r))
  {
    var rep, k := s.replicas[r], Knows(cfg, s);
    var cp := Dump(rep.cp, PassProposes(rep.pass.value));
    assert ReplicaInv(k, g, rep);
    if PassesAcknowledged(cfg, g, rep.view, rep.metas, cp) {
      hide Dump, PassProposes, MetasInv, CheckpointInv, PassInv;
      forall c, q, m: nat | Matters(cfg, g, c, q) && q in rep.metas && m in rep.metas[q] && m < After(cp)
        ensures Has(k, [], c, q, m)
      {
        assert UpTo(k, [], c, q, rep.view[(c, q)].prev);
      }
    } else if cp == rep.cp {
      CheckpointPassesReceived(k, g, rep.metas, cp);
    } else {
      DumpIsBelowMetas(cfg, g, rep.applied, rep.metas, rep.pass.value);
      NoMetaPassesReceived(k, g, rep.metas, cp);
    }
  }

  // ---------------------------------------------------------------- a turn of a Get

  /** Whatever a turn passes by was received before: it is behind the checkpoint, or executed and no
      longer among the metas. */
  lemma PassedByWasReceived(k: Known, g: nat, rep: Replica, p: PendingGet, i: int)
    requires k.cfg.ngroup > 0 && |k.log| <= NO_CURSOR && ReplicaInv(k, g, rep)
    requires GetInv(k, g, rep.trunc, rep.cp, p) && Matters(k.cfg, g, p.c, p.q) && p.q in rep.metas
    requires Sorted(rep.metas[p.q])
    requires var cur := NextInstance(rep.metas[p.q], p.cp, p.minInstance, p.next);
      cur.Some? && After(p.next) <= i < cur.value
    ensures Has(k, [], p.c, p.q, i)
  {
    var metas := rep.metas[p.q];
    assert MetasInv(k, g, rep.applied, p.q, metas);
    if p.cp == NO_CURSOR || p.next >= p.cp {
      var n := NextPos(metas, p.next);
      assert metas[n] in metas;
      if i in metas { NextIsNearest(metas, p.next, i); }
    } else {
      assert i <= rep.cp;
      assert Cursor(k, [], p.c, p.q, rep.cp);
    }
  }

  /** The instance a turn stops at is accounted for by what it adds to the response. */
  lemma StoppedAtIsCovered(k: Known, g: nat, rep: Replica, p: PendingGet, cur: u64)
    requires k.cfg.ngroup > 0 && |k.log| <= NO_CURSOR && ReplicaInv(k, g, rep)
    requires GetInv(k, g, rep.trunc, rep.cp, p) && Matters(k.cfg, g, p.c, p.q) && p.q in rep.metas
    requires Sorted(rep.metas[p.q])
    requires var turn := TurnOf(k.log, rep, p); (turn.StepOver? || turn.Found?) && turn.cur == cur
    ensures Has(k, AfterTurn(k.cfg, p, TurnOf(k.log, rep, p)).items, p.c, p.q, cur)
    ensures cur < |k.log|
  {
    var node := Node(k.log, rep);
    if p.prev != NO_CURSOR && p.prev >= cur {
      assert Has(k, [], p.c, p.q, cur);
    } else if cur < rep.trunc {
      assert Cursor(k, [], p.c, p.q, rep.cp);
      assert Has(k, [], p.c, p.q, cur);
    } else {
      assert node.log[cur] == k.log[cur];
      assert At(k.log, p.q, cur) == ItemsAt(node.log[cur], p.q, cur);
    }
  }

  lemma GetHasCursor(k: Known, g: nat, rep: Replica, p: PendingGet)
    requires k.cfg.ngroup > 0 && ReplicaInv(k, g, rep)
    requires GetInv(k, g, rep.trunc, rep.cp, p) && Matters(k.cfg, g, p.c, p.q)
    ensures Cursor(k, p.items, p.c, p.q, p.next) && rep.applied <= |k.log|
  {
  }

  lemma TurnCovers(k: Known, g: nat, rep: Replica, p: PendingGet)
    requires k.cfg.ngroup > 0 && |k.log| <= NO_CURSOR && ReplicaInv(k, g, rep)
    requires GetInv(k, g, rep.trunc, rep.cp, p) && Matters(k.cfg, g, p.c, p.q) && p.q in rep.metas
    requires Sorted(rep.metas[p.q])
    requires var turn := TurnOf(k.log, rep, p); turn.StepOver? || turn.Found?
    ensures var p' := AfterTurn(k.cfg, p, TurnOf(k.log, rep, p));
      Cursor(k, p'.items, p.c, p.q, p'.next) && p'.next != NO_CURSOR
  {
    hide ReplicaInv, MetasInv, GetInv, TurnOf, ItemsAt, Sorted, NextInstance;
    GetHasCursor(k, g, rep, p);
    var turn := TurnOf(k.log, rep, p);
    var p' := AfterTurn(k.cfg, p, turn);
    TurnStopsAtNext(k, g, rep, p);
    StoppedAtIsCovered(k, g, rep, p, turn.cur);
    forall i | 0 <= i < turn.cur ensures Has(k, p'.items, p.c, p.q, i) {
      if i < After(p.next) {
        assert Has(k, p.items, p.c, p.q, i);
      } else {
        PassedByWasReceived(k, g, rep, p, i);
      }
    }
  }

  lemma TurnKeepsInv(k: Known, g: nat, rep: Replica, p: PendingGet)
    requires k.cfg.ngroup > 0 && |k.log| <= NO_CURSOR && ReplicaInv(k, g, rep)
    requires GetInv(k, g, rep.trunc, rep.cp, p) && p.q in rep.metas && Sorted(rep.metas[p.q])
    ensures GetInv(k, g, rep.trunc, rep.cp, AfterTurn(k.cfg, p, TurnOf(k.log, rep, p)))
  {
    var turn := TurnOf(k.log, rep, p);
    TurnStopsAtNext(k, g, rep, p);
    if (turn.StepOver? || turn.Found?) && Matters(k.cfg, g, p.c, p.q) {
      TurnCovers(k, g, rep, p);
    }
    hide TurnOf, ReplicaInv, UpTo, NextInstance;
  }

  lemma TurnStopsAtNext(k: Known, g: nat, rep: Replica, p: PendingGet)
    requires k.cfg.ngroup > 0 && |k.log| <= NO_CURSOR && ReplicaInv(k, g, rep)
    requires GetInv(k, g, rep.trunc, rep.cp, p) && p.q in rep.metas && Sorted(rep.metas[p.q])
    ensures var turn := TurnOf(k.log, rep, p);
      turn.StepOver? || turn.Found? ==>
        && NextInstance(rep.metas[p.q], p.cp, p.minInstance, p.next) == Some(turn.cur)
        && turn.cur != NO_CURSOR
  {
  }

  // ---------------------------------------------------------------- every step

  lemma WithKeepsInv(cfg: Config, g: nat, s: Group, r: int, rep: Replica)
    requires cfg.ngroup > 0 && Inv(cfg, g, s) && ReplicaInv(Knows(cfg, s), g, rep)
    ensures Inv(cfg, g, With(s, r, rep))
  {
  }

  /** More log or more receipts harm nothing that is not about the new part. */
  lemma OfferGrows(k: Known, l: Known, g: nat, o: (int, int, u64))
    requires k.cfg.ngroup > 0 && Grows(k, l) && OfferInv(k, g, o)
    ensures OfferInv(l, g, o)
  {
    if Matters(k.cfg, g, o.0, o.1) { CursorGrows(k, l, [], o.0, o.1, o.2); }
  }

  lemma GrownKeepsInv(cfg: Config, g: nat, s: Group, t: Group)
    requires cfg.ngroup > 0 && Inv(cfg, g, s) && Grows(Knows(cfg, s), Knows(cfg, t))
    requires t == s.(log := t.log, received := t.received) && LogInv(Knows(cfg, t), g)
    ensures Inv(cfg, g, t)
  {
    var k, l := Knows(cfg, s), Knows(cfg, t);
    forall r | r in t.replicas ensures ReplicaInv(l, g, t.replicas[r]) { ReplicaGrows(k, l, g, t.replicas[r]); }
    forall o | o in t.offered ensures OfferInv(l, g, o) { OfferGrows(k, l, g, o); }
    forall resp | resp in t.sent ensures ResponseInv(l, g, resp) {
      if Matters(cfg, g, resp.c, resp.q) { CursorGrows(k, l, resp.body.items, resp.c, resp.q, resp.body.next); }
    }
    forall cl | cl in t.clients ensures ClientInv(l, g, t.clients[cl]) {
      var client := t.clients[cl];
      if Matters(cfg, g, client.c, client.q) { CursorGrows(k, l, [], client.c, client.q, client.cur.next); }
    }
  }

  lemma LogGrows(k: Known, l: Known, g: nat)
    requires k.cfg.ngroup > 0 && LogInv(k, g) && Grows(k, l) && k.log == l.log
    ensures LogInv(l, g)
  {
    forall i, v | 0 <= i < |l.log| && v in l.log[i] && v.StoreValue? && v.args.sync.Some?
      ensures SyncInv(l, g, v.args.sync.value)
    {
      assert v in k.log[i];
      SyncGrows(k, l, g, v.args.sync.value);
    }
  }

  lemma ChooseKeepsInv(cfg: Config, g: nat, s: Group, inst: Instance)
    requires ValidConfig(cfg) && Inv(cfg, g, s) && Enabled(cfg, g, s, Choose(inst))
    ensures Inv(cfg, g, Do(cfg, g, s, Choose(inst)))
  {
    var t := Do(cfg, g, s, Choose(inst));
    var k, l := Knows(cfg, s), Knows(cfg, t);
    forall i, v | 0 <= i < |l.log| && v in l.log[i] && v.StoreValue? && v.args.sync.Some?
      ensures SyncInv(l, g, v.args.sync.value)
    {
      if i < |k.log| { assert v in k.log[i]; }
      SyncGrows(k, l, g, v.args.sync.value);
    }
    forall i, v | 0 <= i < |l.log| && v in l.log[i] && v.StoreValue? && v.args.add.Some?
      ensures v.args.add.value.queueId in cfg.queues && InGroup(cfg, g, v.args.add.value.queueId)
    {
      if i < |k.log| { assert v in k.log[i]; }
    }
    GrownKeepsInv(cfg, g, s, t);
  }

  lemma RestartKeepsInv(k: Known, g: nat, rep: Replica, cp: u64, trunc: nat)
    requires k.cfg.ngroup > 0 && ViewInv(k, g, rep.view) && CheckpointInv(k, g, cp)
    requires After(cp) <= |k.log| <= NO_CURSOR && trunc <= After(cp)
    requires forall q :: q in rep.metas <==> 0 <= q < k.cfg.nqueue
    ensures ReplicaInv(k, g, Restarted(rep.(cp := cp, trunc := trunc)))
  {
  }

  lemma BeginKeepsInv(k: Known, g: nat, rep: Replica, cl: Client)
    requires k.cfg.ngroup > 0 && ReplicaInv(k, g, rep) && ClientInv(k, g, cl)
    requires (cl.c, cl.q) in rep.view && rep.trunc < TWO_64
    ensures var start := StartOf(rep.view[(cl.c, cl.q)], Request(cl));
      GetInv(k, g, rep.trunc, rep.cp, PendingGet(cl.c, cl.q, start.prev, start.next, [], rep.cp, rep.trunc, false))
  {
  }

  lemma StorePrevKeepsInv(k: Known, g: nat, rep: Replica, id: int)
    requires k.cfg.ngroup > 0 && ReplicaInv(k, g, rep) && id in rep.gets
    requires (rep.gets[id].c, rep.gets[id].q) in rep.view
    ensures var p := rep.gets[id];
      var item := rep.view[(p.c, p.q)];
      ReplicaInv(k, g, rep.(view := rep.view[(p.c, p.q) := if p.prev != NO_CURSOR then SetPrev(item, p.prev) else item],
                            gets := rep.gets[id := p.(prevStored := true)]))
  {
  }

  lemma StoreNextKeepsInv(k: Known, g: nat, rep: Replica, id: int)
    requires k.cfg.ngroup > 0 && ReplicaInv(k, g, rep) && id in rep.gets
    requires (rep.gets[id].c, rep.gets[id].q) in rep.view
    ensures var p := rep.gets[id];
      var item := rep.view[(p.c, p.q)];
      && ReplicaInv(k, g, rep.(view :=
        rep.view[(p.c, p.q) := if p.next != NO_CURSOR then SetNext(item, p.next) else item],
                               gets := rep.gets - {id}))
      && ResponseInv(k, g, Response(p.c, p.q, GetResponse(p.items, p.prev, p.next)))
  {
  }

  lemma ReceiveKeepsInv(cfg: Config, g: nat, s: Group, client: int, resp: Response)
    requires ValidConfig(cfg) && Inv(cfg, g, s) && Enabled(cfg, g, s, Receive(client, resp))
    ensures Inv(cfg, g, Do(cfg, g, s, Receive(client, resp)))
  {
    var t := Do(cfg, g, s, Receive(client, resp));
    var u := s.(received := t.received);
    var k, l := Knows(cfg, s), Knows(cfg, u);
    LogGrows(k, l, g);
    GrownKeepsInv(cfg, g, s, u);
    assert ResponseInv(k, g, resp);
    var next := resp.body.next;
    if Matters(cfg, g, resp.c, resp.q) && next != NO_CURSOR {
      forall i | 0 <= i <= next ensures Has(l, [], resp.c, resp.q, i) {
        assert Has(k, resp.body.items, resp.c, resp.q, i);
      }
    }
    assert ClientInv(l, g, t.clients[client]);
    hide ReplicaInv, LogInv, SyncInv, ResponseInv, ClientInv;
    assert t == u.(clients := t.clients);
  }

  lemma OfferKeepsInv(k: Known, g: nat, view: View, c: int, q: int)
    requires k.cfg.ngroup > 0 && ViewInv(k, g, view) && (c, q) in view && view[(c, q)].prevMagic
    ensures OfferInv(k, g, (c, q, view[(c, q)].prev))
  {
  }

  lemma GetKeepsInv(k: Known, g: nat, rep: Replica, id: int, p: PendingGet)
    requires k.cfg.ngroup > 0 && ReplicaInv(k, g, rep) && GetInv(k, g, rep.trunc, rep.cp, p)
    ensures ReplicaInv(k, g, rep.(gets := rep.gets[id := p]))
  {
  }

  lemma AbortKeepsInv(k: Known, g: nat, rep: Replica, id: int)
    requires k.cfg.ngroup > 0 && ReplicaInv(k, g, rep)
    ensures ReplicaInv(k, g, rep.(gets := rep.gets - {id}))
  {
  }

  lemma SampleKeepsInv(k: Known, g: nat, rep: Replica, id: int)
    requires k.cfg.ngroup > 0 && ReplicaInv(k, g, rep) && id in rep.gets
    ensures GetInv(k, g, rep.trunc, rep.cp, rep.gets[id])
    ensures rep.trunc < TWO_64 ==> GetInv(k, g, rep.trunc, rep.cp, rep.gets[id].(minInstance := rep.trunc))
    ensures GetInv(k, g, rep.trunc, rep.cp, rep.gets[id].(cp := rep.cp))
  {
  }

  lemma ReplicaFacts(k: Known, g: nat, rep: Replica)
    requires k.cfg.ngroup > 0 && ReplicaInv(k, g, rep)
    ensures rep.applied <= |k.log| && After(rep.cp) <= rep.applied && rep.trunc <= After(rep.cp)
    ensures CheckpointInv(k, g, rep.cp) && ViewInv(k, g, rep.view)
      && forall q :: q in rep.metas <==> 0 <= q < k.cfg.nqueue
  {
  }

  lemma InvOf(cfg: Config, g: nat, s: Group)
    requires cfg.ngroup > 0 && Inv(cfg, g, s)
    ensures var k := Knows(cfg, s);
      && LogInv(k, g) && |k.log| <= NO_CURSOR
      && (forall r :: r in s.replicas ==> ReplicaInv(k, g, s.replicas[r]))
      && (forall cl :: cl in s.clients ==> ClientInv(k, g, s.clients[cl]))
  {
  }

  lemma TruncateKeepsInv(k: Known, g: nat, rep: Replica, t: nat)
    requires k.cfg.ngroup > 0 && ReplicaInv(k, g, rep) && rep.trunc <= t <= After(rep.cp)
    ensures ReplicaInv(k, g, rep.(trunc := t))
  {
  }

  // ---- one lemma for every step that changes one replica

  lemma ExecuteStepKeepsInv(cfg: Config, g: nat, s: Group, r: int)
    requires ValidConfig(cfg) && g < cfg.ngroup && Inv(cfg, g, s) && Enabled(cfg, g, s, Execute(r))
    ensures Inv(cfg, g, Do(cfg, g, s, Execute(r)))
  {
    var rep, k := s.replicas[r], Knows(cfg, s);
    InvOf(cfg, g, s);
    hide Inv, ReplicaInv, LogInv, ClientInv, ValidConfig, ExecuteInstance;
    ExecuteKeepsInv(k, g, rep);
    WithKeepsInv(cfg, g, s, r, Do(cfg, g, s, Execute(r)).replicas[r]);
  }

  lemma RestartStepKeepsInv(cfg: Config, g: nat, s: Group, r: int)
    requires ValidConfig(cfg) && g < cfg.ngroup && Inv(cfg, g, s) && Enabled(cfg, g, s, Restart(r))
    ensures Inv(cfg, g, Do(cfg, g, s, Restart(r)))
  {
    var rep, k := s.replicas[r], Knows(cfg, s);
    InvOf(cfg, g, s);
    hide Inv, ReplicaInv, LogInv, ClientInv, ValidConfig, Restarted, ViewInv, CheckpointInv;
    ReplicaFacts(k, g, rep);
    RestartKeepsInv(k, g, rep, rep.cp, rep.trunc);
    assert rep.(cp := rep.cp, trunc := rep.trunc) == rep;
    WithKeepsInv(cfg, g, s, r, Do(cfg, g, s, Restart(r)).replicas[r]);
  }

  lemma LoadStepKeepsInv(cfg: Config, g: nat, s: Group, r: int, donor: int)
    requires ValidConfig(cfg) && g < cfg.ngroup && Inv(cfg, g, s) && Enabled(cfg, g, s, LoadCheckpoint(r, donor))
    ensures Inv(cfg, g, Do(cfg, g, s, LoadCheckpoint(r, donor)))
  {
    var rep, k := s.replicas[r], Knows(cfg, s);
    InvOf(cfg, g, s);
    hide Inv, ReplicaInv, LogInv, ClientInv, ValidConfig, Restarted, ViewInv, CheckpointInv;
    var cp := s.replicas[donor].cp;
    ReplicaFacts(k, g, rep);
    ReplicaFacts(k, g, s.replicas[donor]);
    RestartKeepsInv(k, g, rep, cp, After(cp));
    WithKeepsInv(cfg, g, s, r, Do(cfg, g, s, LoadCheckpoint(r, donor)).replicas[r]);
  }

  lemma TruncateStepKeepsInv(cfg: Config, g: nat, s: Group, r: int, t: nat)
    requires ValidConfig(cfg) && g < cfg.ngroup && Inv(cfg, g, s) && Enabled(cfg, g, s, Truncate(r, t))
    ensures Inv(cfg, g, Do(cfg, g, s, Truncate(r, t)))
  {
    var rep, k := s.replicas[r], Knows(cfg, s);
    InvOf(cfg, g, s);
    hide Inv, ReplicaInv, LogInv, ClientInv, ValidConfig;
    TruncateKeepsInv(k, g, rep, t);
    WithKeepsInv(cfg, g, s, r, Do(cfg, g, s, Truncate(r, t)).replicas[r]);
  }

  lemma MakeCheckPointStepKeepsInv(cfg: Config, g: nat, s: Group, r: int)
    requires ValidConfig(cfg) && g < cfg.ngroup && Inv(cfg, g, s) && Enabled(cfg, g, s, MakeCheckPoint(r))
    ensures Inv(cfg, g, Do(cfg, g, s, MakeCheckPoint(r)))
  {
    var rep, k := s.replicas[r], Knows(cfg, s);
    InvOf(cfg, g, s);
    hide Inv, ReplicaInv, LogInv, ClientInv, ValidConfig, ScanFrom, Dump, Proposed;
    PassKeepsInv(k, g, rep);
    WithKeepsInv(cfg, g, s, r, Do(cfg, g, s, MakeCheckPoint(r)).replicas[r]);
  }

  lemma PassBeginStepKeepsInv(cfg: Config, g: nat, s: Group, r: int)
    requires ValidConfig(cfg) && g < cfg.ngroup && Inv(cfg, g, s) && Enabled(cfg, g, s, PassBegin(r))
    ensures Inv(cfg, g, Do(cfg, g, s, PassBegin(r)))
  {
    var rep, k := s.replicas[r], Knows(cfg, s);
    InvOf(cfg, g, s);
    hide Inv, ReplicaInv, LogInv, ClientInv, ValidConfig;
    PassBeginKeepsInv(k, g, rep);
    WithKeepsInv(cfg, g, s, r, Do(cfg, g, s, PassBegin(r)).replicas[r]);
  }

  lemma PassQueueStepKeepsInv(cfg: Config, g: nat, s: Group, r: int)
    requires ValidConfig(cfg) && g < cfg.ngroup && Inv(cfg, g, s) && Enabled(cfg, g, s, PassQueue(r))
    ensures Inv(cfg, g, Do(cfg, g, s, PassQueue(r)))
  {
    var rep, k := s.replicas[r], Knows(cfg, s);
    InvOf(cfg, g, s);
    hide Inv, ReplicaInv, LogInv, ClientInv, ValidConfig, ScanOne, AllSorted;
    PassQueueKeepsInv(k, g, rep);
    WithKeepsInv(cfg, g, s, r, Do(cfg, g, s, PassQueue(r)).replicas[r]);
  }

  lemma PassDumpStepKeepsInv(cfg: Config, g: nat, s: Group, r: int)
    requires ValidConfig(cfg) && g < cfg.ngroup && Inv(cfg, g, s)
    requires Enabled(cfg, g, s, PassDump(r)) && Safe(cfg, g, s, PassDump(r))
    ensures Inv(cfg, g, Do(cfg, g, s, PassDump(r)))
  {
    var rep, k := s.replicas[r], Knows(cfg, s);
    InvOf(cfg, g, s);
    hide Inv, ReplicaInv, LogInv, ClientInv, ValidConfig, PassesReceived, PassProposes, Dump;
    PassDumpKeepsInv(k, g, rep);
    WithKeepsInv(cfg, g, s, r, Do(cfg, g, s, PassDump(r)).replicas[r]);
  }

  lemma GetBeginStepKeepsInv(cfg: Config, g: nat, s: Group, r: int, id: int, client: int)
    requires ValidConfig(cfg) && g < cfg.ngroup && Inv(cfg, g, s) && Enabled(cfg, g, s, GetBegin(r, id, client))
    ensures Inv(cfg, g, Do(cfg, g, s, GetBegin(r, id, client)))
  {
    var rep, k := s.replicas[r], Knows(cfg, s);
    InvOf(cfg, g, s);
    hide Inv, ReplicaInv, LogInv, ClientInv, ValidConfig, StartOf, Request, GetInv;
    BeginKeepsInv(k, g, rep, s.clients[client]);
    GetKeepsInv(k, g, rep, id, Do(cfg, g, s, GetBegin(r, id, client)).replicas[r].gets[id]);
    WithKeepsInv(cfg, g, s, r, Do(cfg, g, s, GetBegin(r, id, client)).replicas[r]);
  }

  lemma GetSampleStepKeepsInv(cfg: Config, g: nat, s: Group, r: int, id: int, min: bool)
    requires ValidConfig(cfg) && g < cfg.ngroup && Inv(cfg, g, s) && Enabled(cfg, g, s, GetSample(r, id, min))
    ensures Inv(cfg, g, Do(cfg, g, s, GetSample(r, id, min)))
  {
    var rep, k := s.replicas[r], Knows(cfg, s);
    InvOf(cfg, g, s);
    hide Inv, ReplicaInv, LogInv, ClientInv, ValidConfig, GetInv;
    SampleKeepsInv(k, g, rep, id);
    GetKeepsInv(k, g, rep, id, Do(cfg, g, s, GetSample(r, id, min)).replicas[r].gets[id]);
    WithKeepsInv(cfg, g, s, r, Do(cfg, g, s, GetSample(r, id, min)).replicas[r]);
  }

  lemma GetTurnStepKeepsInv(cfg: Config, g: nat, s: Group, r: int, id: int)
    requires ValidConfig(cfg) && g < cfg.ngroup && Inv(cfg, g, s) && Enabled(cfg, g, s, GetTurn(r, id))
    ensures Inv(cfg, g, Do(cfg, g, s, GetTurn(r, id)))
  {
    var rep, k := s.replicas[r], Knows(cfg, s);
    InvOf(cfg, g, s);
    hide Inv, ReplicaInv, LogInv, ClientInv, ValidConfig, GetInv, TurnOf, AfterTurn, Sorted;
    SampleKeepsInv(k, g, rep, id);
    TurnKeepsInv(k, g, rep, rep.gets[id]);
    GetKeepsInv(k, g, rep, id, AfterTurn(cfg, rep.gets[id], TurnOf(s.log, rep, rep.gets[id])));
    WithKeepsInv(cfg, g, s, r, Do(cfg, g, s, GetTurn(r, id)).replicas[r]);
  }

  lemma GetStorePrevStepKeepsInv(cfg: Config, g: nat, s: Group, r: int, id: int)
    requires ValidConfig(cfg) && g < cfg.ngroup && Inv(cfg, g, s) && Enabled(cfg, g, s, GetStorePrev(r, id))
    ensures Inv(cfg, g, Do(cfg, g, s, GetStorePrev(r, id)))
  {
    var rep, k := s.replicas[r], Knows(cfg, s);
    InvOf(cfg, g, s);
    hide Inv, ReplicaInv, LogInv, ClientInv, ValidConfig, SetPrev;
    StorePrevKeepsInv(k, g, rep, id);
    WithKeepsInv(cfg, g, s, r, Do(cfg, g, s, GetStorePrev(r, id)).replicas[r]);
  }

  lemma GetAbortStepKeepsInv(cfg: Config, g: nat, s: Group, r: int, id: int)
    requires ValidConfig(cfg) && g < cfg.ngroup && Inv(cfg, g, s) && Enabled(cfg, g, s, GetAbort(r, id))
    ensures Inv(cfg, g, Do(cfg, g, s, GetAbort(r, id)))
  {
    var rep, k := s.replicas[r], Knows(cfg, s);
    InvOf(cfg, g, s);
    hide Inv, ReplicaInv, LogInv, ClientInv, ValidConfig;
    AbortKeepsInv(k, g, rep, id);
    WithKeepsInv(cfg, g, s, r, Do(cfg, g, s, GetAbort(r, id)).replicas[r]);
  }

  lemma SentKeepsInv(cfg: Config, g: nat, s: Group, resp: Response)
    requires cfg.ngroup > 0 && Inv(cfg, g, s) && ResponseInv(Knows(cfg, s), g, resp)
    ensures Inv(cfg, g, s.(sent := s.sent + {resp}))
  {
  }

  lemma OfferedKeepsInv(cfg: Config, g: nat, s: Group, o: (int, int, u64))
    requires cfg.ngroup > 0 && Inv(cfg, g, s) && OfferInv(Knows(cfg, s), g, o)
    ensures Inv(cfg, g, s.(offered := s.offered + {o}))
  {
  }

  lemma AssignKeepsInv(cfg: Config, g: nat, s: Group, client: int, c: int, q: int)
    requires cfg.ngroup > 0 && Inv(cfg, g, s) && Enabled(cfg, g, s, Assign(client, c, q))
    ensures Inv(cfg, g, Do(cfg, g, s, Assign(client, c, q)))
  {
  }

  lemma OfferStepKeepsInv(cfg: Config, g: nat, s: Group, r: int, c: int, q: int)
    requires cfg.ngroup > 0 && Inv(cfg, g, s) && Enabled(cfg, g, s, OfferSync(r, c, q))
    ensures Inv(cfg, g, Do(cfg, g, s, OfferSync(r, c, q)))
  {
    var k := Knows(cfg, s);
    InvOf(cfg, g, s);
    hide Inv, LogInv, ClientInv, ViewInv;
    ReplicaFacts(k, g, s.replicas[r]);
    OfferKeepsInv(k, g, s.replicas[r].view, c, q);
    OfferedKeepsInv(cfg, g, s, (c, q, s.replicas[r].view[(c, q)].prev));
  }

  lemma AnswerKeepsInv(cfg: Config, g: nat, s: Group, r: int, id: int)
    requires cfg.ngroup > 0 && Inv(cfg, g, s) && Enabled(cfg, g, s, GetStoreNext(r, id))
    ensures Inv(cfg, g, Do(cfg, g, s, GetStoreNext(r, id)))
  {
    var rep, k := s.replicas[r], Knows(cfg, s);
    InvOf(cfg, g, s);
    hide Inv, LogInv, ClientInv, ReplicaInv, ResponseInv;
    StoreNextKeepsInv(k, g, rep, id);
    var t := Do(cfg, g, s, GetStoreNext(r, id));
    WithKeepsInv(cfg, g, s, r, t.replicas[r]);
    var p := rep.gets[id];
    SentKeepsInv(cfg, g, With(s, r, t.replicas[r]), Response(p.c, p.q, GetResponse(p.items, p.prev, p.next)));
  }

  /** Every step keeps the invariant. */
  lemma StepKeepsInv(cfg: Config, g: nat, s: Group, step: Step)
    requires ValidConfig(cfg) && g < cfg.ngroup && Inv(cfg, g, s) && Enabled(cfg, g, s, step) && Safe(cfg, g, s, step)
    ensures Inv(cfg, g, Do(cfg, g, s, step))
  {
    hide Inv, Do, Enabled, Safe, ValidConfig;
    match step
    case Choose(inst) => ChooseKeepsInv(cfg, g, s, inst);
    case OfferSync(r, c, q) => OfferStepKeepsInv(cfg, g, s, r, c, q);
    case Receive(client, resp) => ReceiveKeepsInv(cfg, g, s, client, resp);
    case Assign(client, c, q) => AssignKeepsInv(cfg, g, s, client, c, q);
    case GetStoreNext(r, id) => AnswerKeepsInv(cfg, g, s, r, id);
    case Execute(r) => ExecuteStepKeepsInv(cfg, g, s, r);
    case Restart(r) => RestartStepKeepsInv(cfg, g, s, r);
    case LoadCheckpoint(r, donor) => LoadStepKeepsInv(cfg, g, s, r, donor);
    case Truncate(r, t) => TruncateStepKeepsInv(cfg, g, s, r, t);
    case MakeCheckPoint(r) => MakeCheckPointStepKeepsInv(cfg, g, s, r);
    case PassBegin(r) => PassBeginStepKeepsInv(cfg, g, s, r);
    case PassQueue(r) => PassQueueStepKeepsInv(cfg, g, s, r);
    case PassDump(r) => PassDumpStepKeepsInv(cfg, g, s, r);
    case GetBegin(r, id, client) => GetBeginStepKeepsInv(cfg, g, s, r, id, client);
    case GetSample(r, id, min) => GetSampleStepKeepsInv(cfg, g, s, r, id, min);
    case GetTurn(r, id) => GetTurnStepKeepsInv(cfg, g, s, r, id);
    case GetStorePrev(r, id) => GetStorePrevStepKeepsInv(cfg, g, s, r, id);
    case GetAbort(r, id) => GetAbortStepKeepsInv(cfg, g, s, r, id);
  }

  // ---------------------------------------------------------------- whole runs

  lemma InitialReplica(k: Known, g: nat, rep: Replica)
    requires k.cfg.ngroup > 0 && rep.applied == 0 && rep.trunc == 0
    requires rep.cp == NO_CURSOR && rep.gets == map[] && rep.pass == None
    requires forall q :: q in rep.metas <==> 0 <= q < k.cfg.nqueue
    requires forall q :: q in rep.metas ==> rep.metas[q] == []
    requires forall c, q :: (c, q) in rep.view <==> InRange(k.cfg.nconsumerGroup, k.cfg.nqueue, c, q)
    requires forall key :: key in rep.view ==> rep.view[key] == BLANK
    ensures ReplicaInv(k, g, rep)
  {
  }

  lemma InitHoldsInv(cfg: Config, g: nat, s: Group)
    requires ValidConfig(cfg) && Init(cfg, s)
    ensures Inv(cfg, g, s)
  {
    var k := Knows(cfg, s);
    forall r | r in s.replicas ensures ReplicaInv(k, g, s.replicas[r]) { InitialReplica(k, g, s.replicas[r]); }
    hide ReplicaInv;
  }

  lemma {:induction false} RunKeepsInv(cfg: Config, g: nat, s: Group, steps: seq<Step>)
    requires ValidConfig(cfg) && g < cfg.ngroup && Inv(cfg, g, s) && Runs(cfg, g, s, steps) && SafeRun(cfg, g, s, steps)
    ensures Inv(cfg, g, Final(cfg, g, s, steps))
    decreases |steps|
  {
    if steps != [] {
      hide Inv, Do, Enabled, Safe;
      StepKeepsInv(cfg, g, s, steps[0]);
      RunKeepsInv(cfg, g, Do(cfg, g, s, steps[0]), steps[1..]);
    }
  }

  /** At least once: in every reachable state, whatever an instance at or below a stored prev cursor of
      any replica holds for the group has been received by the group. */
  lemma AcknowledgedWasReceived(cfg: Config, g: nat, init: Group, steps: seq<Step>, r: int, c: int, q: int, i: nat,
      x: QItem)
    requires ValidConfig(cfg) && g < cfg.ngroup && Init(cfg, init)
    requires Runs(cfg, g, init, steps) && SafeRun(cfg, g, init, steps)
    requires Matters(cfg, g, c, q)
    ensures var s := Final(cfg, g, init, steps);
      && r in s.replicas && (c, q) in s.replicas[r].view && s.replicas[r].view[(c, q)].prevMagic
      && i <= s.replicas[r].view[(c, q)].prev
      && Stored(s.log, q, i, x) && !cfg.skip(x, q, c)
      ==> (c, q, x) in s.received
  {
    InitHoldsInv(cfg, g, init);
    RunKeepsInv(cfg, g, init, steps);
    var s := Final(cfg, g, init, steps);
    var k := Knows(cfg, s);
    if r in s.replicas && (c, q) in s.replicas[r].view
        && s.replicas[r].view[(c, q)].prevMagic && i <= s.replicas[r].view[(c, q)].prev {
      assert ReplicaInv(k, g, s.replicas[r]);
      assert UpTo(k, [], c, q, s.replicas[r].view[(c, q)].prev);
      assert Has(k, [], c, q, i);
      if i < |s.log| { ItemsAreStored(s.log, q, i, x); }
    }
  }

  /** Nothing is lost: in every reachable state, what an executed instance holds for a group is still
      among the replica's metas, or was received; and all at or below its checkpoint, which a restart
      skips, was received. */
  lemma NothingIsLost(cfg: Config, g: nat, init: Group, steps: seq<Step>, r: int, c: int, q: int, i: nat, x: QItem)
    requires ValidConfig(cfg) && g < cfg.ngroup && Init(cfg, init)
    requires Runs(cfg, g, init, steps) && SafeRun(cfg, g, init, steps)
    requires Matters(cfg, g, c, q)
    ensures var s := Final(cfg, g, init, steps);
      r in s.replicas && Stored(s.log, q, i, x) && !cfg.skip(x, q, c) ==>
        && q in s.replicas[r].metas
        && (i < s.replicas[r].applied ==> i in s.replicas[r].metas[q] || (c, q, x) in s.received)
        && (i < After(s.replicas[r].cp) ==> (c, q, x) in s.received)
        && s.replicas[r].trunc <= After(s.replicas[r].cp) <= s.replicas[r].applied <= |s.log|
  {
    InitHoldsInv(cfg, g, init);
    RunKeepsInv(cfg, g, init, steps);
    var s := Final(cfg, g, init, steps);
    hide Stored, Inv, Init, Runs, SafeRun, Final;
    if r in s.replicas && Stored(s.log, q, i, x) && !cfg.skip(x, q, c) { InvLosesNothing(cfg, g, s, r, c, q, i, x); }
  }

  lemma InvLosesNothing(cfg: Config, g: nat, s: Group, r: int, c: int, q: int, i: nat, x: QItem)
    requires cfg.ngroup > 0 && Inv(cfg, g, s) && Matters(cfg, g, c, q) && r in s.replicas
    requires Stored(s.log, q, i, x) && !cfg.skip(x, q, c)
    ensures var rep := s.replicas[r];
      && q in rep.metas && (i < rep.applied ==> i in rep.metas[q] || (c, q, x) in s.received)
      && (i < After(rep.cp) ==> (c, q, x) in s.received)
      && rep.trunc <= After(rep.cp) <= rep.applied <= |s.log|
  {
    var k, rep := Knows(cfg, s), s.replicas[r];
    ItemsAreStored(s.log, q, i, x);
    hide Stored, ItemsAt;
    assert ReplicaInv(k, g, rep);
    assert MetasInv(k, g, rep.applied, q, rep.metas[q]);
    assert Cursor(k, [], c, q, rep.cp);
    if i < After(rep.cp) { assert Has(k, [], c, q, i); }
  }
}
