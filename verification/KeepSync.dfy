/** Erasing acknowledged metas and deriving the checkpoint (phxqueue/store/keepsyncthread.cpp:124-284,
    phxqueue/store/checkpointstat.cpp). */
module KeepSync {
  import opened CursorId
  import opened Numbers
  import opened Options
  import opened StoreLog
  import opened StoreMetas
  import opened SyncCtrls
  import opened BaseMgrs

  // ---------------------------------------------------------------- specification

  /** The smallest acknowledged cursor among the valid groups of a queue, and whether all of them
      have acknowledged something. */
  function SlowestGroup(cfg: Config, view: View, q: int, c: nat, min: u64, all: bool): (u64, bool)
    decreases cfg.nconsumerGroup - c
  {
    if c > cfg.nconsumerGroup then (min, all)
    else if (q, c) !in cfg.valid || (c, q) !in view then SlowestGroup(cfg, view, q, c + 1, min, all)
    else if view[(c, q)].prevMagic then
      var p := view[(c, q)].prev;
      SlowestGroup(cfg, view, q, c + 1, if min == NO_CURSOR || p < min then p else min, all)
    else SlowestGroup(cfg, view, q, c + 1, min, false)
  }

  /** What is left of a queue's metas. */
  function Kept(cfg: Config, view: View, q: int, metas: seq<u64>): seq<u64>
    requires Sorted(metas)
  {
    var (min, all) := SlowestGroup(cfg, view, q, 1, NO_CURSOR, true);
    if !all then metas else if min == NO_CURSOR then [] else EraseTill(metas, min)
  }

  /** `finished` marks the early exit taken when instance 0 is still pending. */
  datatype Pass = Pass(metas: MetaView, cp: u64, finished: bool)

  ghost predicate AllSorted(metas: MetaView) { forall q :: q in metas ==> Sorted(metas[q]) }

  /** One queue of a pass: erase, then let the front bound the checkpoint. */
  function ScanOne(cfg: Config, view: View, metas: MetaView, q: nat, cp: u64): (r: Pass)
    requires AllSorted(metas) && q in metas
    ensures r.metas.Keys == metas.Keys && AllSorted(r.metas)
  {
    var metas1 := metas[q := Kept(cfg, view, q, metas[q])];
    if metas1[q] == [] then Pass(metas1, cp, false)
    else
      var tmp := Dec(metas1[q][0]);
      if tmp == NO_CURSOR then Pass(metas1, NO_CURSOR, true)
      else Pass(metas1, if cp == NO_CURSOR || tmp < cp then tmp else cp, false)
  }

  /** The queues q, q + ngroup, q + 2 ngroup, ... in turn. */
  function ScanFrom(cfg: Config, view: View, metas: MetaView, q: nat, cp: u64): (r: Pass)
    requires cfg.ngroup > 0 && AllSorted(metas)
    ensures r.metas.Keys == metas.Keys && AllSorted(r.metas)
    decreases cfg.nqueue - q
  {
    if q >= cfg.nqueue || q !in metas then Pass(metas, cp, false)
    else
      var pass := ScanOne(cfg, view, metas, q, cp);
      if pass.finished then pass else ScanFrom(cfg, view, pass.metas, q + cfg.ngroup, pass.cp)
  }

  /** The checkpoint a pass proposes; `now` is the instance being decided. */
  function Proposed(pass: Pass, now: u64): u64 {
    if pass.cp == NO_CURSOR && !pass.finished then Dec(now) else pass.cp
  }

  /** DumpCheckPoint: the stored checkpoint only moves forward. */
  function Dump(stored: u64, cp: u64): u64 {
    if cp == NO_CURSOR || (stored != NO_CURSOR && stored > cp) then stored else cp
  }

  // ---------------------------------------------------------------- what a pass leaves and proposes

  /** Group `c` is valid for the queue. */
  ghost predicate Waits(cfg: Config, view: View, q: int, c: int) {
    1 <= c <= cfg.nconsumerGroup && (q, c) in cfg.valid && (c, q) in view
  }

  /** A queue keeps all metas while some valid group has stored no prev; otherwise exactly those that lie above
      the prev of some valid group. */
  ghost predicate Left(cfg: Config, view: View, q: int, before: seq<u64>, after: seq<u64>) {
    if exists c :: Waits(cfg, view, q, c) && !view[(c, q)].prevMagic then after == before
    else Sorted(after) && forall m :: m in after <==> m in before && exists c :: IsBelow(cfg, view, q, c, m)
  }

  ghost predicate IsBelow(cfg: Config, view: View, q: int, c: int, m: u64) {
    Waits(cfg, view, q, c) && view[(c, q)].prevMagic && view[(c, q)].prev < m
  }

  /** What is found lies below `x` exactly when some prev does, and everybody has one or not. */
  lemma {:induction false} SlowestBounds(cfg: Config, view: View, q: int, c: nat, min: u64, all: bool, x: u64)
    requires 1 <= c
    ensures var (m, a) := SlowestGroup(cfg, view, q, c, min, all);
      && (a <==> all && forall d :: c <= d && Waits(cfg, view, q, d) ==> view[(d, q)].prevMagic)
      && (m < x <==> min < x || exists d :: c <= d && IsBelow(cfg, view, q, d, x))
    decreases cfg.nconsumerGroup + 1 - c
  {
    if c <= cfg.nconsumerGroup {
      var here := Waits(cfg, view, q, c);
      var p := if here then view[(c, q)].prev else 0;
      var set_ := here && view[(c, q)].prevMagic;
      var min1 := if set_ && (min == NO_CURSOR || p < min) then p else min;
      SlowestBounds(cfg, view, q, c + 1, min1, all && (here ==> set_), x);
      assert SlowestGroup(cfg, view, q, c, min, all) == SlowestGroup(cfg, view, q, c + 1, min1, all && (here ==> set_));
      hide SlowestGroup;
      if set_ && p < x { assert IsBelow(cfg, view, q, c, x); }
      hide IsBelow, Waits;
    }
  }

  /** The cursor found is the smallest stored prev of a valid group, if there is one, and `all` tells whether
      every valid group has stored one. */
  lemma SlowestIsSlowest(cfg: Config, view: View, q: int)
    ensures var (min, all) := SlowestGroup(cfg, view, q, 1, NO_CURSOR, true);
      && (all <==> forall c :: Waits(cfg, view, q, c) ==> view[(c, q)].prevMagic)
      && (forall c :: Waits(cfg, view, q, c) && view[(c, q)].prevMagic ==> min <= view[(c, q)].prev)
      && (min == NO_CURSOR || exists c :: Waits(cfg, view, q, c) && view[(c, q)].prevMagic && view[(c, q)].prev == min)
  {
    var (min, all) := SlowestGroup(cfg, view, q, 1, NO_CURSOR, true);
    SlowestBounds(cfg, view, q, 1, NO_CURSOR, true, 0);
    hide SlowestGroup;
    forall c | Waits(cfg, view, q, c) && view[(c, q)].prevMagic ensures min <= view[(c, q)].prev {
      var p := view[(c, q)].prev;
      if p != NO_CURSOR {
        SlowestBounds(cfg, view, q, 1, NO_CURSOR, true, p + 1);
        assert IsBelow(cfg, view, q, c, p + 1);
      }
    }
    if min != NO_CURSOR { SlowestBounds(cfg, view, q, 1, NO_CURSOR, true, min + 1); }
  }

  lemma KeptIsLeft(cfg: Config, view: View, q: int, metas: seq<u64>)
    requires Sorted(metas)
    ensures Left(cfg, view, q, metas, Kept(cfg, view, q, metas))
  {
    var (min, all) := SlowestGroup(cfg, view, q, 1, NO_CURSOR, true);
    var kept := Kept(cfg, view, q, metas);
    SlowestBounds(cfg, view, q, 1, NO_CURSOR, true, 0);
    forall m | all ensures m in kept <==> m in metas && min < m {
      if min != NO_CURSOR { ErasedIsBelow(metas, min, m); }
    }
    hide Kept, SlowestGroup;
    forall m: u64 | all ensures m in kept <==> m in metas && exists c :: IsBelow(cfg, view, q, c, m) {
      SlowestBounds(cfg, view, q, 1, NO_CURSOR, true, m);
    }
  }

  lemma KeptIsSorted(cfg: Config, view: View, q: int, metas: seq<u64>)
    requires Sorted(metas)
    ensures var kept := Kept(cfg, view, q, metas); Sorted(kept) && (kept != [] ==> kept[0] != NO_CURSOR)
  {
  }

  lemma ErasedIsBelow(s: seq<u64>, c: u64, m: u64)
    requires Sorted(s) && c != NO_CURSOR
    ensures Sorted(EraseTill(s, c)) && (m in EraseTill(s, c) <==> m in s && c < m)
  {
    var n := UpperBound(s, c);
    if m in s && c < m {
      var i :| 0 <= i < |s| && s[i] == m;
      assert s[n..][i - n] == m;
    }
  }

  /** The queues q, q + ngroup, q + 2 ngroup, ... */
  ghost predicate ScannedFrom(cfg: Config, q: nat, p: int)
    requires cfg.ngroup > 0
  {
    q <= p < cfg.nqueue && p % cfg.ngroup == q % cfg.ngroup
  }

  ghost predicate AllQueues(cfg: Config, metas: MetaView) { forall q :: q in metas <==> 0 <= q < cfg.nqueue }

  /** Queue `p` was scanned, and instance 0 is not pending there. */
  ghost predicate Passed(cfg: Config, view: View, before: MetaView, after: MetaView, p: int)
    requires p in before && p in after
  {
    Left(cfg, view, p, before[p], after[p]) && (after[p] != [] ==> after[p][0] != 0)
  }

  /** The pass stopped at queue `z`, where instance 0 is pending. */
  ghost predicate StoppedAt(cfg: Config, view: View, q: nat, before: MetaView, after: MetaView, z: int)
    requires cfg.ngroup > 0 && AllQueues(cfg, before) && AllQueues(cfg, after)
  {
    && ScannedFrom(cfg, q, z) && Left(cfg, view, z, before[z], after[z]) && after[z] != [] && after[z][0] == 0
    && (forall p :: ScannedFrom(cfg, q, p) && p < z ==> Passed(cfg, view, before, after, p))
    && (forall p :: ScannedFrom(cfg, q, p) && z < p ==> after[p] == before[p])
  }

  /** `r` is one below the smallest front, and not above `cp`; the sentinel is above all. */
  ghost predicate IsLeast(cfg: Config, q: nat, metas: MetaView, cp: u64, r: u64)
    requires cfg.ngroup > 0 && AllQueues(cfg, metas)
  {
    && r <= cp && (r == cp || exists p :: ScannedFrom(cfg, q, p) && metas[p] != [] && r + 1 == metas[p][0])
    && forall p :: ScannedFrom(cfg, q, p) && metas[p] != [] ==> r < metas[p][0]
  }

  ghost predicate Leaves(cfg: Config, view: View, q: nat, before: MetaView, cp: u64, r: Pass)
    requires cfg.ngroup > 0 && AllQueues(cfg, before) && AllQueues(cfg, r.metas)
  {
    && (forall p :: p in before && !ScannedFrom(cfg, q, p) ==> r.metas[p] == before[p])
    && if r.finished then r.cp == NO_CURSOR && exists z :: StoppedAt(cfg, view, q, before, r.metas, z)
       else
         && (forall p :: ScannedFrom(cfg, q, p) ==> Passed(cfg, view, before, r.metas, p))
         && IsLeast(cfg, q, r.metas, cp, r.cp)
  }

  lemma {:induction false} ScanLeaves(cfg: Config, view: View, metas: MetaView, q: nat, cp: u64)
    requires cfg.ngroup > 0 && AllSorted(metas) && AllQueues(cfg, metas)
    ensures AllQueues(cfg, ScanFrom(cfg, view, metas, q, cp).metas)
    ensures Leaves(cfg, view, q, metas, cp, ScanFrom(cfg, view, metas, q, cp))
    decreases cfg.nqueue - q
  {
    hide *;
    ScanStep(cfg, view, metas, q, cp);
    if q >= cfg.nqueue {
      NothingLeaves(cfg, view, metas, q, cp);
    } else {
      var one := ScanOne(cfg, view, metas, q, cp);
      OneLeaves(cfg, view, metas, q, cp);
      if !one.finished {
        ScanLeaves(cfg, view, one.metas, q + cfg.ngroup, one.cp);
        RestLeaves(cfg, view, metas, q, cp, one, ScanFrom(cfg, view, one.metas, q + cfg.ngroup, one.cp));
      }
    }
  }

  lemma ScanStep(cfg: Config, view: View, metas: MetaView, q: nat, cp: u64)
    requires cfg.ngroup > 0 && AllSorted(metas) && AllQueues(cfg, metas)
    ensures q < cfg.nqueue ==> q in metas
    ensures ScanFrom(cfg, view, metas, q, cp) ==
      if q >= cfg.nqueue then Pass(metas, cp, false)
      else
        var one := ScanOne(cfg, view, metas, q, cp);
        if one.finished then one else ScanFrom(cfg, view, one.metas, q + cfg.ngroup, one.cp)
  {
    hide Kept, Sorted, ScanOne, AllSorted;
  }

  lemma NothingLeaves(cfg: Config, view: View, metas: MetaView, q: nat, cp: u64)
    requires cfg.ngroup > 0 && AllQueues(cfg, metas) && cfg.nqueue <= q
    ensures Leaves(cfg, view, q, metas, cp, Pass(metas, cp, false))
  {
  }

  lemma OneLeaves(cfg: Config, view: View, metas: MetaView, q: nat, cp: u64)
    requires cfg.ngroup > 0 && AllSorted(metas) && AllQueues(cfg, metas) && q < cfg.nqueue
    ensures var one := ScanOne(cfg, view, metas, q, cp);
      && AllQueues(cfg, one.metas) && one.metas == metas[q := one.metas[q]]
      && (one.finished ==> Leaves(cfg, view, q, metas, cp, one))
      && (!one.finished ==>
            && Passed(cfg, view, metas, one.metas, q)
            && if one.metas[q] == [] || cp < one.metas[q][0] then one.cp == cp else one.cp + 1 == one.metas[q][0])
  {
    KeptIsLeft(cfg, view, q, metas[q]);
    KeptIsSorted(cfg, view, q, metas[q]);
    hide Kept, Left, AllSorted, Sorted;
    var one := ScanOne(cfg, view, metas, q, cp);
    assert one.metas[q] == Kept(cfg, view, q, metas[q]);
    if one.finished { assert StoppedAt(cfg, view, q, metas, one.metas, q); }
  }

  lemma RestLeaves(cfg: Config, view: View, metas: MetaView, q: nat, cp: u64, one: Pass, r: Pass)
    requires cfg.ngroup > 0 && q < cfg.nqueue
    requires AllQueues(cfg, metas) && AllQueues(cfg, one.metas) && AllQueues(cfg, r.metas)
    requires one.metas == metas[q := one.metas[q]] && Passed(cfg, view, metas, one.metas, q)
    requires if one.metas[q] == [] || cp < one.metas[q][0] then one.cp == cp else one.cp + 1 == one.metas[q][0]
    requires Leaves(cfg, view, q + cfg.ngroup, one.metas, one.cp, r)
    ensures Leaves(cfg, view, q, metas, cp, r)
  {
    forall p | ScannedFrom(cfg, q, p) ensures p == q || ScannedFrom(cfg, q + cfg.ngroup, p) {
      NextResidue(q, p, cfg.ngroup);
    }
    NextResidue(q, q, cfg.ngroup);
    forall p | ScannedFrom(cfg, q + cfg.ngroup, p) ensures ScannedFrom(cfg, q, p) && one.metas[p] == metas[p] {}
    assert !ScannedFrom(cfg, q + cfg.ngroup, q) && r.metas[q] == one.metas[q];
    hide Left, ScannedFrom;
    if r.finished {
      var z :| StoppedAt(cfg, view, q + cfg.ngroup, one.metas, r.metas, z);
      assert StoppedAt(cfg, view, q, metas, r.metas, z);
    }
  }

  /** What a whole pass over group `g` leaves, and the checkpoint `cp` that it then wants to write: nothing when
      it stopped early, one below the instance being decided when nothing is left, otherwise one below the
      smallest meta left. */
  ghost predicate Concludes(cfg: Config, view: View, g: nat, before: MetaView, after: MetaView, now: u64, cp: u64)
    requires cfg.ngroup > 0 && AllQueues(cfg, before) && AllQueues(cfg, after)
  {
    && (forall p :: p in before && !ScannedFrom(cfg, g, p) ==> after[p] == before[p])
    && if exists z :: StoppedAt(cfg, view, g, before, after, z) then cp == NO_CURSOR
       else
         && (forall p :: ScannedFrom(cfg, g, p) ==> Passed(cfg, view, before, after, p))
         && if forall p :: ScannedFrom(cfg, g, p) ==> after[p] == []
            then cp == (if now == 0 then NO_CURSOR else now - 1)
            else IsLeast(cfg, g, after, NO_CURSOR, cp) && cp != NO_CURSOR
  }

  /** After such a pass the checkpoint is the one it wanted to write, unless that would move it back. */
  ghost predicate Checkpointed(cfg: Config, view: View, g: nat, before: MetaView, after: MetaView, now: u64,
      was: u64, stored: u64)
    requires cfg.ngroup > 0 && AllQueues(cfg, before) && AllQueues(cfg, after)
  {
    exists cp: u64 ::
      && Concludes(cfg, view, g, before, after, now, cp)
      && stored == if cp == NO_CURSOR || (was != NO_CURSOR && cp < was) then was else cp
  }

  lemma PassConcludes(cfg: Config, view: View, metas: MetaView, g: nat, now: u64, was: u64)
    requires cfg.ngroup > 0 && AllSorted(metas) && AllQueues(cfg, metas)
    ensures var pass := ScanFrom(cfg, view, metas, g, NO_CURSOR);
      && AllQueues(cfg, pass.metas)
      && Checkpointed(cfg, view, g, metas, pass.metas, now, was, Dump(was, Proposed(pass, now)))
  {
    ScanLeaves(cfg, view, metas, g, NO_CURSOR);
    var pass := ScanFrom(cfg, view, metas, g, NO_CURSOR);
    hide ScanFrom, Left, ScannedFrom, AllSorted;
    assert Concludes(cfg, view, g, metas, pass.metas, now, Proposed(pass, now)) by { hide Passed, IsLeast; }
  }

  // ---------------------------------------------------------------- queues of a Paxos group

  predicate InGroup(cfg: Config, g: nat, q: int)
    requires cfg.ngroup > 0
  {
    0 <= q < cfg.nqueue && q % cfg.ngroup == g
  }

  lemma GroupStart(cfg: Config, g: nat, q: int)
    requires g < cfg.ngroup && InGroup(cfg, g, q)
    ensures g <= q && q % cfg.ngroup == g % cfg.ngroup
  {
  }

  // ---------------------------------------------------------------- replicating prev cursors

  /** Every detail of a proposed sync value is a stored prev of the proposing replica. */
  ghost predicate Reflects(cfg: Config, g: nat, view: View, info: SyncCtrlInfo)
    requires cfg.ngroup > 0
  {
    forall d, e {:trigger e in d.groups} :: d in info && e in d.groups ==>
      && InGroup(cfg, g, d.queueId)
      && (e.groupId, d.queueId) in view
      && view[(e.groupId, d.queueId)].prevMagic && view[(e.groupId, d.queueId)].prev == e.prev
  }

  /** One detail of a sync value. */
  ghost predicate Lists(info: SyncCtrlInfo, c: int, q: int, p: u64) {
    exists i, j :: 0 <= i < |info| && 0 <= j < |info[i].groups|
      && info[i].queueId == q && info[i].groups[j] == GroupDetail(c, p)
  }

  ghost predicate ListsAll(cfg: Config, g: nat, view: View, info: SyncCtrlInfo, upto: int)
    requires cfg.ngroup > 0
  {
    forall c, q :: InGroup(cfg, g, q) && q < upto && (c, q) in view && view[(c, q)].prevMagic ==>
      Lists(info, c, q, view[(c, q)].prev)
  }

  /** `groups` holds exactly the stored prevs of queue `q` for the consumer groups below `n`. */
  ghost predicate AreDetails(view: View, q: int, groups: seq<GroupDetail>, n: int) {
    forall e :: e in groups <==>
      e.groupId < n && (e.groupId, q) in view && view[(e.groupId, q)].prevMagic && e.prev == view[(e.groupId, q)].prev
  }

  lemma OneMoreDetail(view: View, q: int, groups: seq<GroupDetail>, c: int)
    requires AreDetails(view, q, groups, c) && (c, q) in view
    ensures AreDetails(view, q,
      if view[(c, q)].prevMagic then groups + [GroupDetail(c, view[(c, q)].prev)] else groups, c + 1)
  {
  }

  lemma ReflectsMore(cfg: Config, g: nat, view: View, info: SyncCtrlInfo, q: nat, groups: seq<GroupDetail>, n: nat)
    requires g < cfg.ngroup && InGroup(cfg, g, q) && Reflects(cfg, g, view, info) && AreDetails(view, q, groups, n)
    ensures Reflects(cfg, g, view, if groups == [] then info else info + [QueueDetail(q, groups)])
  {
  }

  lemma ListsMore(cfg: Config, g: nat, view: View, info: SyncCtrlInfo, q: nat, groups: seq<GroupDetail>, n: nat)
    requires g < cfg.ngroup && InGroup(cfg, g, q) && ListsAll(cfg, g, view, info, q)
    requires forall k :: k in view ==> k.0 < n
    requires AreDetails(view, q, groups, n)
    ensures ListsAll(cfg, g, view, if groups == [] then info else info + [QueueDetail(q, groups)], q + cfg.ngroup)
  {
    var more := if groups == [] then info else info + [QueueDetail(q, groups)];
    forall c, p | InGroup(cfg, g, p) && p < q + cfg.ngroup && (c, p) in view && view[(c, p)].prevMagic
      ensures Lists(more, c, p, view[(c, p)].prev)
    {
      if p < q {
        var i, j :| 0 <= i < |info| && 0 <= j < |info[i].groups| && info[i].queueId == p
          && info[i].groups[j] == GroupDetail(c, view[(c, p)].prev);
        assert more[i] == info[i];
      } else {
        NextResidue(q, p, cfg.ngroup);
        assert GroupDetail(c, view[(c, q)].prev) in groups;
        var j :| 0 <= j < |groups| && groups[j] == GroupDetail(c, view[(c, q)].prev);
        assert more[|info|].groups[j] == groups[j];
      }
    }
  }

  // ---------------------------------------------------------------- the classes

  class CheckPointStat {
    var magic: bool
    var cp: u64

    constructor ()
      ensures Stored() == NO_CURSOR
    {
      magic, cp := false, 0;
    }

    ghost function Stored(): u64 reads this { if magic then cp else NO_CURSOR }

    method GetCheckPoint() returns (r: u64)
      ensures r == Stored()
    {
      return if magic then cp else NO_CURSOR;
    }

    method UpdateCheckPointAndFlush(cp: u64)
      modifies this
      ensures Stored() == cp
    {
      if !magic { magic := true; }
      this.cp := cp;
    }
  }

  class KeepSyncThread {
    const mgr: BaseMgr
    const stat: CheckPointStat

    constructor (mgr: BaseMgr, stat: CheckPointStat)
      ensures this.mgr == mgr && this.stat == stat
    {
      this.mgr := mgr;
      this.stat := stat;
    }

    method DumpCheckPoint(cp: u64)
      modifies stat
      ensures stat.Stored() == Dump(old(stat.Stored()), cp)
    {
      if cp == NO_CURSOR { return; }
      var stored := stat.GetCheckPoint();
      if stored != NO_CURSOR && stored > cp { return; }
      stat.UpdateCheckPointAndFlush(cp);
    }

    method FindSlowestGroup(q: nat) returns (min: u64, all: bool)
      requires mgr.Valid() && q < mgr.cfg.nqueue
      ensures (min, all) == SlowestGroup(mgr.cfg, mgr.sync.State(), q, 1, NO_CURSOR, true)
      ensures all <==> forall c :: Waits(mgr.cfg, mgr.sync.State(), q, c) ==> mgr.sync.State()[(c, q)].prevMagic
    {
      SlowestIsSlowest(mgr.cfg, mgr.sync.State(), q);
      hide Waits;
      min, all := NO_CURSOR, true;
      var c := 1;
      while c <= mgr.cfg.nconsumerGroup
        invariant c >= 1
        invariant SlowestGroup(mgr.cfg, mgr.sync.State(), q, c, min, all) ==
                  SlowestGroup(mgr.cfg, mgr.sync.State(), q, 1, NO_CURSOR, true)
      {
        if (q, c) in mgr.cfg.valid {
          var ret, p := mgr.sync.GetCursorID(c, q, true);
          if ret == Ok {
            if min == NO_CURSOR || p < min { min := p; }
          } else if ret == CursorNotFound {
            all := false;
          }
        }
        c := c + 1;
      }
    }

    method EraseAcknowledged(q: nat)
      requires mgr.Valid() && q < mgr.cfg.nqueue
      modifies mgr.metaQueues
      ensures mgr.Valid() && mgr.sync.State() == old(mgr.sync.State())
      ensures q in old(mgr.Metas()) && Sorted(old(mgr.Metas())[q])
      ensures mgr.Metas() == old(mgr.Metas())[q := Kept(mgr.cfg, mgr.sync.State(), q, old(mgr.Metas())[q])]
    {
      var min, all := FindSlowestGroup(q);
      assert q in mgr.Metas() && Sorted(mgr.Metas()[q]);
      assert mgr.Metas()[q := mgr.Metas()[q]] == mgr.Metas();
      if all { mgr.EraseMetas(q, min); }
    }

    method ScanQueue(q: nat, acc: u64) returns (cp: u64, finish: bool)
      requires mgr.Valid() && q < mgr.cfg.nqueue && AllSorted(mgr.Metas())
      modifies mgr.metaQueues
      ensures mgr.Valid() && mgr.sync.State() == old(mgr.sync.State())
      ensures q in old(mgr.Metas()) && q in mgr.Metas() && mgr.Metas() == old(mgr.Metas())[q := mgr.Metas()[q]]
      ensures Left(mgr.cfg, mgr.sync.State(), q, old(mgr.Metas())[q], mgr.Metas()[q])
      ensures var left := mgr.Metas()[q];
        if left == [] then cp == acc && !finish
        else if left[0] == 0 then cp == NO_CURSOR && finish
        else !finish && if acc < left[0] then cp == acc else cp + 1 == left[0]
      ensures Pass(mgr.Metas(), cp, finish) == ScanOne(mgr.cfg, mgr.sync.State(), old(mgr.Metas()), q, acc)
    {
      cp, finish := acc, false;
      assert q in mgr.Metas();
      KeptIsLeft(mgr.cfg, mgr.sync.State(), q, mgr.Metas()[q]);
      KeptIsSorted(mgr.cfg, mgr.sync.State(), q, mgr.Metas()[q]);
      hide Kept, Left, Sorted;
      EraseAcknowledged(q);
      var found, front := mgr.FrontOf(q);
      if found {
        var tmp := Dec(front);
        if tmp == NO_CURSOR {
          cp := NO_CURSOR;
          finish := true;
        }
        if cp == NO_CURSOR || tmp < cp { cp := tmp; }
      }
    }

    method ScanGroup(group: nat) returns (cp: u64, finish: bool)
      requires mgr.Valid() && AllSorted(mgr.Metas()) && mgr.cfg.ngroup > 0 && mgr.sync.Valid()
      modifies mgr.metaQueues
      ensures mgr.Valid() && mgr.sync.State() == old(mgr.sync.State())
      ensures Pass(mgr.Metas(), cp, finish) == ScanFrom(mgr.cfg, mgr.sync.State(), old(mgr.Metas()), group, NO_CURSOR)
    {
      hide ScanOne, AllSorted, BaseMgr.Valid, BaseMgr.Metas, SyncCtrl.State, SyncCtrl.Valid;
      ghost var view, metas0 := mgr.sync.State(), mgr.Metas();
      cp, finish := NO_CURSOR, false;
      var q := group;
      while q < mgr.cfg.nqueue && !finish
        invariant mgr.Valid() && mgr.sync.State() == view && AllSorted(mgr.Metas())
        invariant ScanFrom(mgr.cfg, view, metas0, group, NO_CURSOR) ==
          if finish then Pass(mgr.Metas(), cp, true) else ScanFrom(mgr.cfg, view, mgr.Metas(), q, cp)
        decreases mgr.cfg.nqueue - q
      {
        cp, finish := ScanQueue(q, cp);
        q := q + mgr.cfg.ngroup;
      }
    }

    /** One pass over the queues of a Paxos group, taken as one step: nothing executes meanwhile. */
    method MakeCheckPoint(group: nat, now: u64)
      requires mgr.Valid() && AllSorted(mgr.Metas())
      modifies mgr.metaQueues, stat
      ensures mgr.Valid() && mgr.sync.State() == old(mgr.sync.State())
      ensures var pass := ScanFrom(mgr.cfg, mgr.sync.State(), old(mgr.Metas()), group, NO_CURSOR);
        && mgr.Metas() == pass.metas
        && stat.Stored() == Dump(old(stat.Stored()), Proposed(pass, now))
      ensures AllQueues(mgr.cfg, old(mgr.Metas())) && AllQueues(mgr.cfg, mgr.Metas())
      ensures Checkpointed(mgr.cfg, mgr.sync.State(), group, old(mgr.Metas()), mgr.Metas(), now,
        old(stat.Stored()), stat.Stored())
    {
      assert mgr.cfg.ngroup > 0 && AllQueues(mgr.cfg, mgr.Metas()) && mgr.sync.Valid();
      hide ScanFrom, AllQueues, Checkpointed, AllSorted, Dump;
      hide BaseMgr.Valid, BaseMgr.Metas, SyncCtrl.State, SyncCtrl.Valid;
      PassConcludes(mgr.cfg, mgr.sync.State(), mgr.Metas(), group, now, stat.Stored());
      var cp, finish := ScanGroup(group);
      if cp == NO_CURSOR && !finish { cp := Dec(now); }
      DumpCheckPoint(cp);
    }

    method QueueDetails(q: nat) returns (groups: seq<GroupDetail>)
      requires mgr.Valid() && mgr.sync.Valid() && q < mgr.cfg.nqueue
      ensures AreDetails(mgr.sync.State(), q, groups, mgr.cfg.nconsumerGroup + 1)
    {
      groups := [];
      assert mgr.sync.nconsumerGroup == mgr.cfg.nconsumerGroup && mgr.sync.nqueue == mgr.cfg.nqueue;
      ghost var view := mgr.sync.State();
      var c := 1;
      while c <= mgr.cfg.nconsumerGroup
        invariant 1 <= c <= mgr.cfg.nconsumerGroup + 1
        invariant AreDetails(view, q, groups, c)
      {
        hide BaseMgr.Valid, SyncCtrl.State, AreDetails;
        var ret, p := mgr.sync.GetCursorID(c, q, true);
        OneMoreDetail(view, q, groups, c);
        if ret == Ok { groups := groups + [GroupDetail(c, p)]; }
        c := c + 1;
      }
    }

    /** The sync value that the master proposes for a Paxos group: all stored prevs of the group's queues
        and nothing else. */
    method SyncCursorID(group: nat) returns (info: SyncCtrlInfo)
      requires mgr.Valid() && group < mgr.cfg.ngroup
      ensures Reflects(mgr.cfg, group, mgr.sync.State(), info)
      ensures ListsAll(mgr.cfg, group, mgr.sync.State(), info, mgr.cfg.nqueue)
    {
      assert mgr.sync.Valid() && mgr.cfg.ngroup > 0;
      ghost var view, n := mgr.sync.State(), mgr.cfg.nconsumerGroup + 1;
      assert forall k :: k in view ==> k.0 < n;
      info := [];
      var q := group;
      DivModUnique(group, mgr.cfg.ngroup, 0, group);
      forall p | InGroup(mgr.cfg, group, p) ensures group <= p { GroupStart(mgr.cfg, group, p); }
      assert ListsAll(mgr.cfg, group, view, info, q);
      hide BaseMgr.Valid, SyncCtrl.State, ListsAll, Reflects, AreDetails, SyncCtrl.Valid;
      assert Reflects(mgr.cfg, group, view, info) by { NothingReflects(mgr.cfg, group, view); }
      while q < mgr.cfg.nqueue
        invariant q % mgr.cfg.ngroup == group
        invariant Reflects(mgr.cfg, group, view, info)
        invariant ListsAll(mgr.cfg, group, view, info, q)
        decreases mgr.cfg.nqueue - q
      {
        var groups := QueueDetails(q);
        ListsMore(mgr.cfg, group, view, info, q, groups, n);
        ReflectsMore(mgr.cfg, group, view, info, q, groups, n);
        if groups != [] { info := info + [QueueDetail(q, groups)]; }
        NextResidue(q, q, mgr.cfg.ngroup);
        q := q + mgr.cfg.ngroup;
      }
      ListsAllToo(mgr.cfg, group, view, info, q);
    }
  }

  lemma NothingReflects(cfg: Config, g: nat, view: View)
    requires cfg.ngroup > 0
    ensures Reflects(cfg, g, view, [])
  {
  }

  lemma ListsAllToo(cfg: Config, g: nat, view: View, info: SyncCtrlInfo, q: int)
    requires cfg.ngroup > 0 && ListsAll(cfg, g, view, info, q) && cfg.nqueue <= q
    ensures ListsAll(cfg, g, view, info, cfg.nqueue)
  {
  }
}
