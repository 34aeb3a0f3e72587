/** SafeRun is needed, and exactly so: a checkpoint that passes a meta which some group still waits for can be
    followed by a state in which that group has acknowledged an item it never received.

    After such a checkpoint the replica restarts, cuts its log, takes one more add to the queue and executes all
    there is. The meta is then gone, so that the first turn of a newcomer's Get goes past the item, and the
    newcomer's second Get acknowledges what the first one returned. One run to such a checkpoint is spelled out:
    a replica scans its first queue while that is empty, executes an add to each of its two queues, and scans
    the second one. */
module StoreLimits {
  import opened CursorId
  import opened Options
  import opened StoreItems
  import opened StoreLog
  import opened StoreMetas
  import opened SyncCtrls
  import opened BaseMgrs
  import opened KeepSync
  import opened StoreRun
  import opened StoreSafety
  import opened StoreGets
  import opened StorePass

  /** Where a run leads in which no interleaved pass ends. */
  ghost function Outcome(cfg: Config, g: nat, s: Group, steps: seq<Step>): Option<Group>
    requires cfg.ngroup > 0
  {
    if Runs(cfg, g, s, steps) && forall i :: 0 <= i < |steps| ==> !steps[i].PassDump?
    then Some(Final(cfg, g, s, steps)) else None
  }

  ghost predicate Leads(cfg: Config, g: nat, s: Group, steps: seq<Step>, t: Group)
    requires cfg.ngroup > 0
  {
    Outcome(cfg, g, s, steps) == Some(t)
  }

  lemma Stay(cfg: Config, g: nat, s: Group)
    requires cfg.ngroup > 0
    ensures Leads(cfg, g, s, [], s)
  {
  }

  lemma Then(cfg: Config, g: nat, s: Group, steps: seq<Step>, t: Group, step: Step)
    requires cfg.ngroup > 0 && Leads(cfg, g, s, steps, t) && Enabled(cfg, g, t, step) && !step.PassDump?
    ensures Leads(cfg, g, s, steps + [step], Do(cfg, g, t, step))
  {
    hide Do, Enabled;
    assert [step][1..] == [];
    assert Runs(cfg, g, Do(cfg, g, t, step), []);
    assert Runs(cfg, g, t, [step]) && Final(cfg, g, t, [step]) == Do(cfg, g, t, step);
    RunsCompose(cfg, g, s, steps, [step]);
  }

  lemma Compose(cfg: Config, g: nat, s: Group, a: seq<Step>, t: Group, b: seq<Step>, u: Group)
    requires cfg.ngroup > 0 && Leads(cfg, g, s, a, t) && Leads(cfg, g, t, b, u)
    ensures Leads(cfg, g, s, a + b, u)
  {
    RunsCompose(cfg, g, s, a, b);
  }

  function OneAdd(q: int, item: QItem): Instance { [StoreValue(StorePaxosArgs(Some(AddRequest(q, [item])), None))] }

  /** The stored prev of the pair is `p`. */
  ghost predicate PrevIs(s: Group, r: int, c: int, q: int, p: u64) {
    r in s.replicas && (c, q) in s.replicas[r].view
      && s.replicas[r].view[(c, q)].prevMagic && s.replicas[r].view[(c, q)].prev == p
  }

  // ---------------------------------------------------------------- what follows an unsafe checkpoint

  /** The replica executes the instances up to `hi`. */
  lemma {:induction false} ExecuteUpTo(cfg: Config, g: nat, s: Group, r: int, hi: nat)
      returns (steps: seq<Step>, t: Group)
    requires cfg.ngroup > 0 && r in s.replicas && s.replicas[r].applied <= hi <= |s.log| <= NO_CURSOR
    ensures Leads(cfg, g, s, steps, t)
    ensures var rep := s.replicas[r];
      var (metas, view) := ExecuteRange(cfg, s.log, rep.metas, rep.view, rep.applied, hi);
      t == With(s, r, rep.(applied := hi, metas := metas, view := view))
    decreases hi
  {
    Stay(cfg, g, s);
    hide Leads, ExecuteInstance;
    if s.replicas[r].applied == hi {
      steps, t := [], s;
      assert s == With(s, r, s.replicas[r]);
    } else {
      steps, t := ExecuteUpTo(cfg, g, s, r, hi - 1);
      Then(cfg, g, s, steps, t, Execute(r));
      steps, t := steps + [Execute(r)], Do(cfg, g, t, Execute(r));
      assert t.replicas == s.replicas[r := t.replicas[r]];
    }
  }

  lemma {:induction false} RangeKeepsView(k: Known, g: nat, metas: MetaView, view: View, lo: nat, hi: nat)
    requires k.cfg.ngroup > 0 && LogInv(k, g) && ViewInv(k, g, view) && lo <= hi <= |k.log|
    ensures ViewInv(k, g, ExecuteRange(k.cfg, k.log, metas, view, lo, hi).1)
    decreases hi
  {
    if lo < hi {
      RangeKeepsView(k, g, metas, view, lo, hi - 1);
      var (m, v) := ExecuteRange(k.cfg, k.log, metas, view, lo, hi - 1);
      InstanceKeepsView(k, g, m, v, hi - 1, k.log[hi - 1]);
    }
  }

  /** A restarted replica that executed all there is: instance `m` is behind its checkpoint and `q` has got
      something after it; what the pair's stored prev covers lies before `m`. */
  ghost predicate Skips(s: Group, r: int, c: int, q: int, m: nat) {
    && r in s.replicas
    && var rep := s.replicas[r];
      && rep.applied == |s.log| <= NO_CURSOR && m < After(rep.cp) == rep.trunc < |s.log| && rep.gets == map[]
      && q in rep.metas && Sorted(rep.metas[q]) && rep.metas[q] != [] && rep.trunc <= rep.metas[q][0] < |s.log|
      && (c, q) in rep.view && (rep.view[(c, q)].prevMagic ==> rep.view[(c, q)].prev < m)
  }

  lemma {:induction false} CursorOfItems(inst: Instance, q: int, i: u64, x: QItem)
    requires x in ItemsAt(inst, q, i)
    ensures x.cursor == i
    decreases inst
  {
    if x !in ItemsOfValue(inst[0], q, i) { CursorOfItems(inst[1..], q, i, x); }
  }

  function Empty(c: int, q: int, start: SyncCtrls.Cursors, rep: Replica): PendingGet
    requires rep.trunc < TWO_64
  {
    PendingGet(c, q, start.prev, start.next, [], rep.cp, rep.trunc, false)
  }

  /** A newcomer's turn passes `m` by. */
  lemma TurnSkips(s: Group, r: int, c: int, q: int, m: nat)
    requires Skips(s, r, c, q, m)
    ensures var rep := s.replicas[r];
      var p := Empty(c, q, StartOf(rep.view[(c, q)], SyncCtrls.Cursors(NO_CURSOR, NO_CURSOR)), rep);
      var turn := TurnOf(s.log, rep, p);
      && (p.prev != NO_CURSOR ==> p.prev < m) && (turn.StepOver? || turn.Found?) && m < turn.cur < |s.log|
      && (turn.Found? ==> turn.found == At(s.log, q, turn.cur))
  {
    var rep := s.replicas[r];
    var p := Empty(c, q, StartOf(rep.view[(c, q)], SyncCtrls.Cursors(NO_CURSOR, NO_CURSOR)), rep);
    assert p.next == NO_CURSOR || p.next == p.prev < m;
    hide ItemsAt, StartOf;
    assert s.log[..rep.applied] == s.log;
  }

  /** Consumer `y` serves the pair and has a Get in progress; the log and what was received are as before. */
  ghost predicate Serves(s: Group, t: Group, r: int, c: int, q: int, y: int, p: PendingGet) {
    && t.log == s.log && t.received == s.received && y in t.clients && t.clients[y].c == c && t.clients[y].q == q
    && r in s.replicas && r in t.replicas && t.replicas[r] == s.replicas[r].(gets := map[0 := p])
  }

  lemma NewcomerOpens(cfg: Config, g: nat, s: Group, r: int, c: int, q: int, m: nat, y: int)
      returns (steps: seq<Step>, t: Group, p: PendingGet)
    requires cfg.ngroup > 0 && Skips(s, r, c, q, m) && InGroup(cfg, g, q)
    ensures Leads(cfg, g, s, steps, t) && Serves(s, t, r, c, q, y, p)
    ensures var rep := s.replicas[r];
      p == Empty(c, q, StartOf(rep.view[(c, q)], SyncCtrls.Cursors(NO_CURSOR, NO_CURSOR)), rep)
  {
    var rep := s.replicas[r];
    p := Empty(c, q, StartOf(rep.view[(c, q)], SyncCtrls.Cursors(NO_CURSOR, NO_CURSOR)), rep);
    Stay(cfg, g, s);
    hide Leads, StartOf, Sorted;
    Then(cfg, g, s, [], s, Assign(y, c, q));
    var w1 := Do(cfg, g, s, Assign(y, c, q));
    Then(cfg, g, s, [] + [Assign(y, c, q)], w1, GetBegin(r, 0, y));
    steps, t := [] + [Assign(y, c, q)] + [GetBegin(r, 0, y)], Do(cfg, g, w1, GetBegin(r, 0, y));
    assert t.replicas[r].gets == map[0 := p];
  }

  /** The newcomer is answered from behind `m`. */
  lemma NewcomerSkips(cfg: Config, g: nat, s: Group, r: int, c: int, q: int, m: nat, y: int)
      returns (steps: seq<Step>, t: Group, p: PendingGet)
    requires cfg.ngroup > 0 && Skips(s, r, c, q, m) && InGroup(cfg, g, q)
    ensures Leads(cfg, g, s, steps, t) && Serves(s, t, r, c, q, y, p)
    ensures p.c == c && p.q == q && (p.prev != NO_CURSOR ==> p.prev < m) && !p.prevStored
    ensures m < p.next < |s.log| && forall x :: x in p.items ==> x.cursor == p.next
  {
    var s1, w1, p1 := NewcomerOpens(cfg, g, s, r, c, q, m, y);
    TurnSkips(s, r, c, q, m);
    var rep := s.replicas[r];
    var turn := TurnOf(s.log, rep, p1);
    SameTurn(s.log, rep, w1.replicas[r], p1);
    p := AfterTurn(cfg, p1, turn);
    ItemsOfTurn(cfg, s.log, p1, turn);
    hide Leads, TurnOf, StartOf, Meant, ItemsAt, Sorted;
    Then(cfg, g, s, s1, w1, GetTurn(r, 0));
    steps, t := s1 + [GetTurn(r, 0)], Do(cfg, g, w1, GetTurn(r, 0));
    assert t.replicas[r].gets == map[0 := p];
  }

  lemma ItemsOfTurn(cfg: Config, log: Log, p: PendingGet, turn: BaseMgrs.Turn)
    requires p.items == [] && (turn.StepOver? || turn.Found?)
    requires turn.Found? ==> turn.cur < |log| && turn.found == At(log, p.q, turn.cur)
    ensures forall x :: x in AfterTurn(cfg, p, turn).items ==> x.cursor == turn.cur
  {
    if turn.Found? && turn.cur < NO_CURSOR {
      forall x | x in turn.found ensures x.cursor == turn.cur { CursorOfItems(log[turn.cur], p.q, turn.cur, x); }
    }
  }

  lemma SameTurn(log: Log, a: Replica, b: Replica, p: PendingGet)
    requires b == a.(gets := b.gets) && a.applied <= |log| && p.q in a.metas && Sorted(a.metas[p.q])
    ensures TurnOf(log, a, p) == TurnOf(log, b, p)
  {
  }

  // ---------------------------------------------------------------- and loses an item

  /** What acknowledging amounts to, in terms of the group's state alone. */
  ghost predicate AtLeastOnce(cfg: Config, g: nat, s: Group)
    requires cfg.ngroup > 0
  {
    forall r, c, q, i: nat, x :: !Lost(cfg, g, s, r, c, q, i, x)
  }

  /** A stored prev covers an item that its group has not received. */
  ghost predicate Lost(cfg: Config, g: nat, s: Group, r: int, c: int, q: int, i: nat, x: QItem)
    requires cfg.ngroup > 0
  {
    && Matters(cfg, g, c, q) && Stored(s.log, q, i, x) && !cfg.skip(x, q, c) && (c, q, x) !in s.received
    && r in s.replicas && (c, q) in s.replicas[r].view
      && s.replicas[r].view[(c, q)].prevMagic && i <= s.replicas[r].view[(c, q)].prev
  }

  /** The newcomer takes its answer over, and its next Get acknowledges it. */
  lemma NewcomerAcknowledges(cfg: Config, g: nat, s: Group, s1: Group, r: int, c: int, q: int, m: nat, y: int,
      p: PendingGet)
      returns (steps: seq<Step>, t: Group)
    requires cfg.ngroup > 0 && Skips(s, r, c, q, m) && Serves(s, s1, r, c, q, y, p)
    requires p.c == c && p.q == q && !p.prevStored
    requires (p.prev != NO_CURSOR ==> p.prev < m) && m < p.next < NO_CURSOR
    ensures Leads(cfg, g, s1, steps, t) && t.log == s.log && PrevIs(t, r, c, q, p.next)
    ensures t.received == s.received + (set x | x in p.items :: (c, q, x))
  {
    var s2, w2 := NewcomerAnswered(cfg, g, s, s1, r, c, q, m, y, p);
    var resp := Response(c, q, GetResponse(p.items, p.prev, p.next));
    var s3, w4 := AnswerTaken(cfg, g, w2, r, y, resp);
    hide Leads, Serves, Skips;
    Compose(cfg, g, s1, s2, w2, s3, w4);
    Then(cfg, g, s1, s2 + s3, w4, GetStorePrev(r, 0));
    steps, t := s2 + s3 + [GetStorePrev(r, 0)], Do(cfg, g, w4, GetStorePrev(r, 0));
  }

  lemma AnswerTaken(cfg: Config, g: nat, w: Group, r: int, y: int, resp: Response) returns (steps: seq<Step>, t: Group)
    requires cfg.ngroup > 0 && r in w.replicas && w.replicas[r].gets == map[] && w.replicas[r].trunc < TWO_64
    requires y in w.clients && w.clients[y].c == resp.c && w.clients[y].q == resp.q && resp in w.sent
    requires (resp.c, resp.q) in w.replicas[r].view && resp.body.next != NO_CURSOR
    requires var item := w.replicas[r].view[(resp.c, resp.q)];
      item.nextMagic && item.next == resp.body.next && (item.prevMagic ==> item.prev < resp.body.next)
    ensures Leads(cfg, g, w, steps, t) && t.log == w.log && r in t.replicas && t.replicas[r].view == w.replicas[r].view
    ensures t.received == w.received + (set x | x in resp.body.items :: (resp.c, resp.q, x))
    ensures 0 in t.replicas[r].gets
    ensures var p := t.replicas[r].gets[0]; p.c == resp.c && p.q == resp.q && p.prev == resp.body.next && !p.prevStored
  {
    Stay(cfg, g, w);
    hide Leads;
    Then(cfg, g, w, [], w, Receive(y, resp));
    var w1 := Do(cfg, g, w, Receive(y, resp));
    Then(cfg, g, w, [] + [Receive(y, resp)], w1, GetBegin(r, 0, y));
    steps, t := [] + [Receive(y, resp)] + [GetBegin(r, 0, y)], Do(cfg, g, w1, GetBegin(r, 0, y));
  }

  lemma NewcomerAnswered(cfg: Config, g: nat, s: Group, s1: Group, r: int, c: int, q: int, m: nat, y: int,
      p: PendingGet)
      returns (steps: seq<Step>, t: Group)
    requires cfg.ngroup > 0 && Skips(s, r, c, q, m) && Serves(s, s1, r, c, q, y, p)
    requires p.c == c && p.q == q && !p.prevStored
    requires (p.prev != NO_CURSOR ==> p.prev < m) && m < p.next < NO_CURSOR
    ensures Leads(cfg, g, s1, steps, t) && t.log == s.log && t.received == s.received && t.clients == s1.clients
    ensures Response(c, q, GetResponse(p.items, p.prev, p.next)) in t.sent
    ensures r in t.replicas && t.replicas[r].gets == map[]
    ensures t.replicas[r].trunc < TWO_64 && (c, q) in t.replicas[r].view
    ensures var item := t.replicas[r].view[(c, q)];
      item.nextMagic && item.next == p.next && (item.prevMagic ==> item.prev < m)
  {
    Stay(cfg, g, s1);
    hide Leads, Sorted;
    Then(cfg, g, s1, [], s1, GetStorePrev(r, 0));
    var w2 := Do(cfg, g, s1, GetStorePrev(r, 0));
    Then(cfg, g, s1, [] + [GetStorePrev(r, 0)], w2, GetStoreNext(r, 0));
    steps, t := [] + [GetStorePrev(r, 0)] + [GetStoreNext(r, 0)], Do(cfg, g, w2, GetStoreNext(r, 0));
    assert t.replicas[r].gets == map[];
  }

  /** The dump has been followed by a restart, a truncation and an add to the queue. */
  function Restored(s: Group, r: int, cp: u64, q: int): Group
    requires r in s.replicas
  {
    var rep := Restarted(s.replicas[r].(cp := cp, pass := None)).(trunc := After(cp));
    With(s, r, rep).(log := s.log + [OneAdd(q, QItem(0, 0, 0, 0, 0))])
  }

  lemma DumpThenRestore(cfg: Config, g: nat, s: Group, r: int, q: int) returns (steps: seq<Step>)
    requires ValidConfig(cfg) && Inv(cfg, g, s) && Enabled(cfg, g, s, PassDump(r)) && |s.log| < NO_CURSOR
    requires InGroup(cfg, g, q) && q in cfg.queues
    ensures var cp := Dump(s.replicas[r].cp, PassProposes(s.replicas[r].pass.value));
      Leads(cfg, g, Do(cfg, g, s, PassDump(r)), steps, Restored(s, r, cp, q))
  {
    var s1, add := Do(cfg, g, s, PassDump(r)), OneAdd(q, QItem(0, 0, 0, 0, 0));
    var cp := s1.replicas[r].cp;
    assert ReplicaInv(Knows(cfg, s), g, s.replicas[r]);
    Stay(cfg, g, s1);
    hide Leads, ReplicaInv, LogInv, SyncInv, ResponseInv, ClientInv;
    Then(cfg, g, s1, [], s1, Restart(r));
    var s2 := Do(cfg, g, s1, Restart(r));
    Then(cfg, g, s1, [] + [Restart(r)], s2, Truncate(r, After(cp)));
    var s3 := Do(cfg, g, s2, Truncate(r, After(cp)));
    Then(cfg, g, s1, [] + [Restart(r)] + [Truncate(r, After(cp))], s3, Choose(add));
    steps := [] + [Restart(r)] + [Truncate(r, After(cp))] + [Choose(add)];
    assert Do(cfg, g, s3, Choose(add)).replicas == Restored(s, r, cp, q).replicas;
  }

  /** Executing all there is brings the replica to where it skips the item. */
  lemma ExecutedSkips(cfg: Config, g: nat, s: Group, r: int, cp: u64, c: int, q: int, m: nat, x: QItem)
      returns (steps: seq<Step>, t: Group)
    requires ValidConfig(cfg) && Inv(cfg, g, s) && r in s.replicas
    requires |s.log| < NO_CURSOR && m < After(cp) <= s.replicas[r].applied
    requires Matters(cfg, g, c, q) && x in At(s.log, q, m) && !cfg.skip(x, q, c) && (c, q, x) !in s.received
    ensures Leads(cfg, g, Restored(s, r, cp, q), steps, t) && Skips(t, r, c, q, m)
    ensures t.log == Restored(s, r, cp, q).log && t.received == s.received
  {
    var w := Restored(s, r, cp, q);
    var rep, k := w.replicas[r], Knows(cfg, w);
    RestoredFacts(cfg, g, s, r, cp, q);
    RangeKeepsView(k, g, rep.metas, rep.view, rep.applied, |w.log|);
    var before := s.replicas[r].(cp := cp);
    RestartRebuildsMetas(cfg, w.log, before, |w.log|, q);
    HoldingHolds(w.log, q, After(cp), |w.log|);
    OneAddHolds(q, QItem(0, 0, 0, 0, 0), |s.log|);
    hide Inv, ReplicaInv, ViewInv, ItemsAt, Sorted, LogInv;
    steps, t := ExecuteUpTo(cfg, g, w, r, |w.log|);
    ViewIsBefore(k, g, t.replicas[r].view, c, q, m, x);
    FrontIsHeld(w.log, q, After(cp), |s.log|, t.replicas[r].metas[q]);
  }

  lemma RestoredFacts(cfg: Config, g: nat, s: Group, r: int, cp: u64, q: int)
    requires ValidConfig(cfg) && Inv(cfg, g, s) && r in s.replicas
    requires |s.log| < NO_CURSOR && InGroup(cfg, g, q) && q in cfg.queues
    ensures var w := Restored(s, r, cp, q);
      && LogInv(Knows(cfg, w), g) && ViewInv(Knows(cfg, w), g, w.replicas[r].view)
      && w.replicas[r].metas == Restarted(s.replicas[r].(cp := cp)).metas && w.replicas[r].view == s.replicas[r].view
      && forall p :: p in w.replicas[r].metas <==> 0 <= p < cfg.nqueue
  {
    var w, add := Restored(s, r, cp, q), OneAdd(q, QItem(0, 0, 0, 0, 0));
    ChooseKeepsInv(cfg, g, s, add);
    var u := Do(cfg, g, s, Choose(add));
    assert Knows(cfg, u) == Knows(cfg, w);
    InvOf(cfg, g, u);
    hide Inv, ReplicaInv, LogInv, ClientInv, ViewInv;
    ReplicaFacts(Knows(cfg, w), g, u.replicas[r]);
  }

  lemma CoveredIsReceived(k: Known, c: int, q: int, p: u64, i: nat, x: QItem)
    requires UpTo(k, [], c, q, p) && i <= p && x in At(k.log, q, i) && !k.cfg.skip(x, q, c)
    ensures (c, q, x) in k.received
  {
    assert Has(k, [], c, q, i);
  }

  lemma ViewIsBefore(k: Known, g: nat, view: View, c: int, q: int, m: nat, x: QItem)
    requires ValidConfig(k.cfg) && ViewInv(k, g, view) && Matters(k.cfg, g, c, q)
    requires x in At(k.log, q, m) && !k.cfg.skip(x, q, c) && (c, q, x) !in k.received
    ensures (c, q) in view && (view[(c, q)].prevMagic ==> view[(c, q)].prev < m)
  {
    if view[(c, q)].prevMagic && m <= view[(c, q)].prev { CoveredIsReceived(k, c, q, view[(c, q)].prev, m, x); }
  }

  lemma FrontIsHeld(log: Log, q: int, lo: nat, n: nat, metas: seq<u64>)
    requires lo <= n < |log| <= NO_CURSOR && ItemsAt(log[n], q, n) != [] && metas == Holding(log, q, lo, |log|)
    ensures metas != [] && lo <= metas[0] < |log|
  {
    HoldingHolds(log, q, lo, |log|);
    var i: nat := n;
    assert i in metas;
    assert metas[0] in metas;
  }

  /** From every state of the invariant: a checkpoint that passes a meta somebody still waits for can be
      followed, with no further such checkpoint, by a state in which a stored prev covers the item though the
      group never received it. */
  lemma UnreceivedIsLost(cfg: Config, g: nat, s: Group, r: int, c: int, q: int, m: nat, x: QItem)
      returns (steps: seq<Step>)
    requires ValidConfig(cfg) && g < cfg.ngroup && Inv(cfg, g, s)
    requires Enabled(cfg, g, s, PassDump(r)) && |s.log| < NO_CURSOR
    requires Matters(cfg, g, c, q) && x in At(s.log, q, m) && !cfg.skip(x, q, c) && (c, q, x) !in s.received
    requires m < After(Dump(s.replicas[r].cp, PassProposes(s.replicas[r].pass.value)))
    ensures var u := Do(cfg, g, s, PassDump(r));
      Runs(cfg, g, u, steps) && SafeRun(cfg, g, u, steps) && Lost(cfg, g, Final(cfg, g, u, steps), r, c, q, m, x)
  {
    var u, cp := Do(cfg, g, s, PassDump(r)), Dump(s.replicas[r].cp, PassProposes(s.replicas[r].pass.value));
    assert After(cp) <= s.replicas[r].applied by { assert ReplicaInv(Knows(cfg, s), g, s.replicas[r]); }
    assert q in cfg.queues;
    hide Inv, Leads, Skips, Dump, PassProposes;
    var s1 := DumpThenRestore(cfg, g, s, r, q);
    var s2, w2 := ExecutedSkips(cfg, g, s, r, cp, c, q, m, x);
    Compose(cfg, g, u, s1, Restored(s, r, cp, q), s2, w2);
    var s3, w3, p := NewcomerSkips(cfg, g, w2, r, c, q, m, 0);
    Compose(cfg, g, u, s1 + s2, w2, s3, w3);
    SkipsIsShort(w2, r, c, q, m);
    var s4, w4 := NewcomerAcknowledges(cfg, g, w2, w3, r, c, q, m, 0, p);
    Compose(cfg, g, u, s1 + s2 + s3, w3, s4, w4);
    steps := s1 + s2 + s3 + s4;
    LeadsSafely(cfg, g, u, steps, w4);
    LeadsFinal(cfg, g, u, steps, w4);
    if m < |s.log| { CursorOfItems(s.log[m], q, m, x); }
    assert At(w4.log, q, m) == At(s.log, q, m);
    ItemsAreStored(w4.log, q, m, x);
  }

  lemma SkipsIsShort(s: Group, r: int, c: int, q: int, m: nat)
    requires Skips(s, r, c, q, m)
    ensures |s.log| <= NO_CURSOR
  {
  }

  lemma {:induction false} LeadsSafely(cfg: Config, g: nat, s: Group, steps: seq<Step>, t: Group)
    requires cfg.ngroup > 0 && Leads(cfg, g, s, steps, t)
    ensures SafeRun(cfg, g, s, steps)
    decreases |steps|
  {
    hide Do, Enabled;
    if steps != [] {
      assert Leads(cfg, g, Do(cfg, g, s, steps[0]), steps[1..], t);
      LeadsSafely(cfg, g, Do(cfg, g, s, steps[0]), steps[1..], t);
    }
  }

  /** Safe is the exact condition: in every state of the invariant the checkpoint of an interleaved pass is
      safe if and only if delivery stays at least once whatever follows, up to the next unsafe one. */
  lemma DumpIsSafeIff(cfg: Config, g: nat, s: Group, r: int)
    requires ValidConfig(cfg) && g < cfg.ngroup && Inv(cfg, g, s)
    requires Enabled(cfg, g, s, PassDump(r)) && |s.log| < NO_CURSOR
    ensures var u := Do(cfg, g, s, PassDump(r));
      Safe(cfg, g, s, PassDump(r)) <==>
      forall steps :: Runs(cfg, g, u, steps) && SafeRun(cfg, g, u, steps) ==>
        AtLeastOnce(cfg, g, Final(cfg, g, u, steps))
  {
    var u := Do(cfg, g, s, PassDump(r));
    if Safe(cfg, g, s, PassDump(r)) {
      StepKeepsInv(cfg, g, s, PassDump(r));
      hide Inv, AtLeastOnce;
      forall steps | Runs(cfg, g, u, steps) && SafeRun(cfg, g, u, steps)
        ensures AtLeastOnce(cfg, g, Final(cfg, g, u, steps))
      {
        RunKeepsInv(cfg, g, u, steps);
        InvIsAtLeastOnce(cfg, g, Final(cfg, g, u, steps));
      }
    } else {
      var rep, k := s.replicas[r], Knows(cfg, s);
      var c, q, m: nat :| Matters(cfg, g, c, q) && q in rep.metas && m in rep.metas[q]
        && m < After(Dump(rep.cp, PassProposes(rep.pass.value))) && !Has(k, [], c, q, m);
      var x :| x in At(s.log, q, m) && !cfg.skip(x, q, c) && (c, q, x) !in s.received;
      hide Inv, Safe;
      var steps := UnreceivedIsLost(cfg, g, s, r, c, q, m, x);
      assert !AtLeastOnce(cfg, g, Final(cfg, g, u, steps));
    }
  }

  lemma InvIsAtLeastOnce(cfg: Config, g: nat, s: Group)
    requires cfg.ngroup > 0 && Inv(cfg, g, s)
    ensures AtLeastOnce(cfg, g, s)
  {
    var k := Knows(cfg, s);
    forall r, c, q, i: nat, x ensures !Lost(cfg, g, s, r, c, q, i, x) {
      if Lost(cfg, g, s, r, c, q, i, x) {
        assert ReplicaInv(k, g, s.replicas[r]);
        ItemsAreStored(s.log, q, i, x);
        CoveredIsReceived(k, c, q, s.replicas[r].view[(c, q)].prev, i, x);
      }
    }
  }

  // ---------------------------------------------------------------- a run from the first state

  function TwoQueues(): Config {
    Config(2, 1, 1, {0, 1}, {0, 1}, {(0, 1), (1, 1)}, (x: QItem, q: int, c: int) => false, 1000)
  }

  /** An unsafe checkpoint exists for every sampled instance `now` and every proposal `p` at or above it. Queue 0
      is scanned while empty; then `now` adds to queue 0 and p + 1 to queue 1; then queue 1 is scanned.
      The proposal is `p`, though `now` was just added to queue 0 and no group has read it: a restart from
      this checkpoint would never put it back. */
  lemma RacyPassPassesByAnItem(now: u64, p: u64, item: QItem)
    requires now <= p && p + 1 < NO_CURSOR
    ensures ValidConfig(TwoQueues())
    ensures var cfg := TwoQueues();
      var view := map[(1, 0) := BLANK, (1, 1) := BLANK];
      var empty: MetaView := map[0 := [], 1 := []];
      && AllSorted(empty)
      && var first := ScanOne(cfg, view, empty, 0, NO_CURSOR);
         var metas1 := ExecuteInstance(cfg, first.metas, view, now, OneAdd(0, item)).0;
         var metas2 := ExecuteInstance(cfg, metas1, view, p + 1, OneAdd(1, item)).0;
      && AllSorted(metas2) && 1 in metas2 && 0 in metas2
      && var second := ScanOne(cfg, view, metas2, 1, first.cp);
      && PassProposes(Scanning(now, 2, second.cp, second.finished)) == p
      && now in second.metas[0] && now < After(p)
  {
    var cfg := TwoQueues();
    var view := map[(1, 0) := BLANK, (1, 1) := BLANK];
    var empty: MetaView := map[0 := [], 1 := []];
    hide ExecuteInstance, SlowestGroup, Kept, PushCursor;
    NothingErased(cfg, view, 0, []);
    assert empty[0 := []] == empty;
    OneAddExecutes(cfg, empty, view, now, 0, item);
    var metas1 := empty[0 := [now]];
    OneAddExecutes(cfg, metas1, view, p + 1, 1, item);
    var metas2 := metas1[1 := [p + 1]];
    assert PushCursor([], now) == [now] && PushCursor([], p + 1) == [p + 1] by {
      PushOntoEmpty(now); PushOntoEmpty(p + 1);
    }
    NothingErased(cfg, view, 1, [p + 1]);
    assert metas2[1 := [p + 1]] == metas2;
  }

  lemma PushOntoEmpty(c: u64)
    requires c != NO_CURSOR
    ensures PushCursor([], c) == [c]
  {
  }

  lemma NothingErased(cfg: Config, view: View, q: int, metas: seq<u64>)
    requires cfg == TwoQueues() && 0 <= q <= 1 && (1, q) in view && !view[(1, q)].prevMagic && Sorted(metas)
    ensures Kept(cfg, view, q, metas) == metas
  {
  }

  /** One replica, two queues, nothing chosen yet. */
  function TwoQueuesStart(): Group {
    var view := map[(1, 0) := BLANK, (1, 1) := BLANK];
    Group([], map[0 := Replica(0, 0, NO_CURSOR, map[0 := [], 1 := []], view, map[], None)], {}, {}, map[], {})
  }

  lemma TwoQueuesInit()
    ensures ValidConfig(TwoQueues()) && Init(TwoQueues(), TwoQueuesStart())
  {
  }

  /** From the first state a pass can be interleaved so that its checkpoint covers an item that no group has
      received; after a restart and one more add the group acknowledges it without having received it. */
  lemma RacyRunLosesAnItem(item: QItem) returns (steps: seq<Step>)
    ensures ValidConfig(TwoQueues()) && Init(TwoQueues(), TwoQueuesStart())
    ensures Runs(TwoQueues(), 0, TwoQueuesStart(), steps)
    ensures Lost(TwoQueues(), 0, Final(TwoQueues(), 0, TwoQueuesStart(), steps), 0, 1, 0, 0, item.(cursor := 0))
  {
    TwoQueuesInit();
    var cfg, s0 := TwoQueues(), TwoQueuesStart();
    var s1, w1 := RacyScan(item);
    InitHoldsInv(cfg, 0, s0);
    LeadsSafely(cfg, 0, s0, s1, w1);
    LeadsFinal(cfg, 0, s0, s1, w1);
    RunKeepsInv(cfg, 0, s0, s1);
    var s2 := RacyDump(item);
    hide Inv, Leads, Runs, Final, SafeRun, Init, ItemsAt, Lost, Do, Enabled;
    RunsCompose(cfg, 0, s0, s1, [PassDump(0)] + s2);
    steps := s1 + ([PassDump(0)] + s2);
  }

  lemma RacyDump(item: QItem) returns (steps: seq<Step>)
    requires ValidConfig(TwoQueues()) && Inv(TwoQueues(), 0, RacyScanned(item))
    ensures var all := [PassDump(0)] + steps;
      && Runs(TwoQueues(), 0, RacyScanned(item), all)
      && Lost(TwoQueues(), 0, Final(TwoQueues(), 0, RacyScanned(item), all), 0, 1, 0, 0, item.(cursor := 0))
  {
    var cfg, w := TwoQueues(), RacyScanned(item);
    OneAddHolds(0, item, 0);
    hide Inv, Runs, Final, SafeRun, ItemsAt, Lost;
    steps := UnreceivedIsLost(cfg, 0, w, 0, 1, 0, 0, item.(cursor := 0));
    StepThen(cfg, 0, w, PassDump(0), steps);
  }

  /** What the replica has scanned and executed when it is about to write the checkpoint. */
  function RacyScanned(item: QItem): Group {
    With(TwoQueuesStart().(log := [OneAdd(0, item), OneAdd(1, item)]), 0,
         TwoQueuesStart().replicas[0].(applied := 2,
           metas := map[0 := [0], 1 := [1]], pass := Some(Scanning(0, 2, 0, false))))
  }

  lemma RacyScan(item: QItem) returns (steps: seq<Step>, t: Group)
    ensures Leads(TwoQueues(), 0, TwoQueuesStart(), steps, t) && t == RacyScanned(item)
  {
    var cfg, s0 := TwoQueues(), TwoQueuesStart();
    var s1, w1 := ScanBeforeAdds();
    var s2, w2 := AddsExecuted(item, w1);
    Compose(cfg, 0, s0, s1, w1, s2, w2);
    var s3, w3 := ScanAfterAdds(item, w2);
    Compose(cfg, 0, s0, s1 + s2, w2, s3, w3);
    steps, t := s1 + s2 + s3, w3;
  }

  lemma StepThen(cfg: Config, g: nat, s: Group, step: Step, steps: seq<Step>)
    requires cfg.ngroup > 0 && Enabled(cfg, g, s, step) && Runs(cfg, g, Do(cfg, g, s, step), steps)
    ensures Runs(cfg, g, s, [step] + steps)
    ensures Final(cfg, g, s, [step] + steps) == Final(cfg, g, Do(cfg, g, s, step), steps)
  {
    hide Do, Enabled;
    assert ([step] + steps)[1..] == steps;
  }

  lemma ScanAfterAdds(item: QItem, s: Group) returns (steps: seq<Step>, t: Group)
    requires s == With(TwoQueuesStart().(log := [OneAdd(0, item), OneAdd(1, item)]), 0,
                       TwoQueuesStart().replicas[0].(applied := 2, metas := map[0 := [0], 1 := [1]],
                         pass := Some(Scanning(0, 1, NO_CURSOR, false))))
    ensures Leads(TwoQueues(), 0, s, steps, t)
    ensures t == With(s, 0, s.replicas[0].(pass := Some(Scanning(0, 2, 0, false))))
  {
    var cfg := TwoQueues();
    var metas := s.replicas[0].metas;
    NothingErased(cfg, s.replicas[0].view, 1, [1]);
    assert metas[1 := [1]] == metas;
    Stay(cfg, 0, s);
    hide Leads, Kept;
    Then(cfg, 0, s, [], s, PassQueue(0));
    steps, t := [] + [PassQueue(0)], Do(cfg, 0, s, PassQueue(0));
  }

  lemma LeadsFinal(cfg: Config, g: nat, s: Group, steps: seq<Step>, t: Group)
    requires cfg.ngroup > 0 && Leads(cfg, g, s, steps, t)
    ensures Runs(cfg, g, s, steps) && Final(cfg, g, s, steps) == t
  {
  }

  lemma OneAddHolds(q: int, item: QItem, i: u64)
    ensures ItemsAt(OneAdd(q, item), q, i) == [item.(cursor := i)]
  {
  }

  lemma ScanBeforeAdds() returns (steps: seq<Step>, t: Group)
    ensures Leads(TwoQueues(), 0, TwoQueuesStart(), steps, t)
    ensures t == With(TwoQueuesStart(), 0,
      TwoQueuesStart().replicas[0].(pass := Some(Scanning(0, 1, NO_CURSOR, false))))
  {
    var cfg, s0 := TwoQueues(), TwoQueuesStart();
    var metas := s0.replicas[0].metas;
    NothingErased(cfg, s0.replicas[0].view, 0, []);
    assert metas[0 := []] == metas;
    Stay(cfg, 0, s0);
    hide Leads, Kept;
    Then(cfg, 0, s0, [], s0, PassBegin(0));
    var s1 := Do(cfg, 0, s0, PassBegin(0));
    Then(cfg, 0, s0, [] + [PassBegin(0)], s1, PassQueue(0));
    steps, t := [] + [PassBegin(0)] + [PassQueue(0)], Do(cfg, 0, s1, PassQueue(0));
  }

  lemma AddsExecuted(item: QItem, s: Group) returns (steps: seq<Step>, t: Group)
    requires s == With(TwoQueuesStart(), 0,
      TwoQueuesStart().replicas[0].(pass := Some(Scanning(0, 1, NO_CURSOR, false))))
    ensures Leads(TwoQueues(), 0, s, steps, t)
    ensures t == With(s.(log := [OneAdd(0, item), OneAdd(1, item)]), 0,
      s.replicas[0].(applied := 2, metas := map[0 := [0], 1 := [1]]))
  {
    var cfg := TwoQueues();
    var rep := s.replicas[0];
    Stay(cfg, 0, s);
    OneAddExecutes(cfg, rep.metas, rep.view, 0, 0, item);
    OneAddExecutes(cfg, map[0 := [0], 1 := []], rep.view, 1, 1, item);
    PushOntoEmpty(0);
    PushOntoEmpty(1);
    hide Leads, ExecuteInstance, PushCursor;
    Then(cfg, 0, s, [], s, Choose(OneAdd(0, item)));
    var w1 := Do(cfg, 0, s, Choose(OneAdd(0, item)));
    Then(cfg, 0, s, [] + [Choose(OneAdd(0, item))], w1, Choose(OneAdd(1, item)));
    var w2 := Do(cfg, 0, w1, Choose(OneAdd(1, item)));
    var s2 := [] + [Choose(OneAdd(0, item))] + [Choose(OneAdd(1, item))];
    Then(cfg, 0, s, s2, w2, Execute(0));
    var w3 := Do(cfg, 0, w2, Execute(0));
    assert w3.replicas[0].metas == map[0 := [0], 1 := []];
    Then(cfg, 0, s, s2 + [Execute(0)], w3, Execute(0));
    steps, t := s2 + [Execute(0)] + [Execute(0)], Do(cfg, 0, w3, Execute(0));
    assert t.replicas[0].metas == map[0 := [0], 1 := [1]];
  }

  lemma OneAddExecutes(cfg: Config, metas: MetaView, view: View, cursor: u64, q: int, item: QItem)
    requires q in cfg.pubQueues && q in metas
    ensures ExecuteInstance(cfg, metas, view, cursor, OneAdd(q, item)) ==
      (metas[q := PushCursor(metas[q], cursor)], view)
  {
  }
}
