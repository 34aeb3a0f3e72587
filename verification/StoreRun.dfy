/** One Paxos group of a store as a state machine over several replicas and many consumers.

    Steps interleave freely: a Get is split into its start, its turns and its two cursor updates, any
    replica may serve it (so a change of master needs no step of its own), responses may be delayed,
    duplicated or lost, consumers may be reassigned or restarted. A MakeCheckPoint pass is one step, or
    one step a queue with anything in between; then its checkpoint may pass a meta that is still there, and
    SafeRun is about the runs in which whatever it passes was received. */
module StoreRun {
  import opened CursorId
  import opened Options
  import opened StoreLog
  import opened StoreMetas
  import opened SyncCtrls
  import opened BaseMgrs
  import opened KeepSync

  /** A Get in progress; `cp` and `minInstance` were sampled after the cursor pair, one at a time. */
  datatype PendingGet = PendingGet(c: int, q: int, prev: u64, next: u64,
    items: seq<QItem>, cp: u64, minInstance: u64, prevStored: bool)

  /** A MakeCheckPoint pass in progress: `now` was sampled at its start, `q` is scanned next. */
  datatype Scanning = Scanning(now: nat, q: nat, cp: u64, finished: bool)

  /** `applied` instances were executed, those below `trunc` deleted from the log. `cp` and `view` are
      durable; `metas`, `gets` and `pass` are not. */
  datatype Replica = Replica(applied: nat, trunc: nat, cp: u64, metas: MetaView,
    view: View, gets: map<int, PendingGet>, pass: Option<Scanning>)

  datatype Response = Response(c: int, q: int, body: GetResponse)

  datatype Client = Client(c: int, q: int, cur: SyncCtrls.Cursors)

  /** `offered` are the (group, queue, prev) read for sync values; `received` records what consumers took
      over from responses: (group, queue, item). */
  datatype Group = Group(
    log: Log,
    replicas: map<int, Replica>,
    offered: set<(int, int, u64)>,
    sent: set<Response>,
    clients: map<int, Client>,
    received: set<(int, int, QItem)>)

  datatype Step =
    | Choose(inst: Instance)
    | Execute(r: int)
    | Restart(r: int)
    | LoadCheckpoint(r: int, donor: int)
    | Truncate(r: int, t: nat)
    | MakeCheckPoint(r: int)
    | PassBegin(r: int)
    | PassQueue(r: int)
    | PassDump(r: int)
    | OfferSync(r: int, c: int, q: int)
    | GetBegin(r: int, id: int, client: int)
    | GetSample(r: int, id: int, min: bool)
    | GetTurn(r: int, id: int)
    | GetStorePrev(r: int, id: int)
    | GetStoreNext(r: int, id: int)
    | GetAbort(r: int, id: int)
    | Receive(client: int, resp: Response)
    | Assign(client: int, c: int, q: int)

  // ---------------------------------------------------------------- the steps

  /** Every detail of a sync value was read from some replica, each at its own time. */
  ghost predicate Offered(info: SyncCtrlInfo, offered: set<(int, int, u64)>) {
    forall d, e {:trigger e in d.groups} :: d in info && e in d.groups ==> (e.groupId, d.queueId, e.prev) in offered
  }

  /** Values reach the log through Store::Add, which checks the queue, or through SyncCursorID. */
  ghost predicate Proper(cfg: Config, g: nat, inst: Instance, offered: set<(int, int, u64)>)
    requires cfg.ngroup > 0
  {
    forall v :: v in inst && v.StoreValue? ==>
      && (v.args.add.Some? ==> v.args.add.value.queueId in cfg.queues && InGroup(cfg, g, v.args.add.value.queueId))
      && (v.args.sync.Some? ==> Offered(v.args.sync.value, offered))
  }

  /** All values of one instance in order, under the same instance id. */
  function ExecuteInstance(cfg: Config, metas: MetaView, view: View, cursor: u64,
      inst: Instance): (r: (MetaView, View))
  {
    if inst == [] then (metas, view)
    else
      var (m, v) := if inst[0].StoreValue? then ExecuteArgs(cfg, metas, view, cursor, inst[0].args) else (metas, view);
      ExecuteInstance(cfg, m, v, cursor, inst[1..])
  }

  function Node(log: Log, rep: Replica): NodeView
    requires rep.applied <= |log|
  {
    NodeView(log[..rep.applied], rep.trunc, {})
  }

  function TurnOf(log: Log, rep: Replica, p: PendingGet): BaseMgrs.Turn
    requires rep.applied <= |log| && p.q in rep.metas && Sorted(rep.metas[p.q])
  {
    TakeTurn(rep.metas[p.q], Node(log, rep), p.cp, p.minInstance, p.q, p.prev, p.next)
  }

  function AfterTurn(cfg: Config, p: PendingGet, turn: BaseMgrs.Turn): PendingGet {
    match turn
    case StepOver(cur) => p.(next := cur)
    case Found(cur, found) => p.(next := cur, items := p.items + Meant(cfg, found, p.q, p.c))
    case _ => p
  }

  /** The stock consumer acknowledges what it got last: CustomGetRequest sends prev = next. */
  function Request(client: Client): SyncCtrls.Cursors { SyncCtrls.Cursors(client.cur.next, client.cur.next) }

  /** LoadCheckpointState, like a restart, ends in a fresh process that executes from cp + 1. */
  function Restarted(rep: Replica): Replica {
    rep.(applied := After(rep.cp), metas := map q | q in rep.metas :: [], gets := map[], pass := None)
  }

  ghost predicate Enabled(cfg: Config, g: nat, s: Group, step: Step)
    requires cfg.ngroup > 0
  {
    match step
    case Choose(inst) => |s.log| < NO_CURSOR && Proper(cfg, g, inst, s.offered)
    case Execute(r) => r in s.replicas && s.replicas[r].applied < |s.log| && s.replicas[r].applied < NO_CURSOR
    case Restart(r) => r in s.replicas
    case LoadCheckpoint(r, donor) => r in s.replicas && donor in s.replicas && s.replicas[donor].cp != NO_CURSOR
    case Truncate(r, t) => r in s.replicas && s.replicas[r].trunc <= t <= After(s.replicas[r].cp)
    case MakeCheckPoint(r) =>
      r in s.replicas && s.replicas[r].pass.None? && AllSorted(s.replicas[r].metas) && s.replicas[r].applied < TWO_64
    case PassBegin(r) => r in s.replicas && s.replicas[r].pass.None? && s.replicas[r].applied < TWO_64
    case PassQueue(r) =>
      && r in s.replicas && s.replicas[r].pass.Some? && AllSorted(s.replicas[r].metas)
      && s.replicas[r].pass.value.q < cfg.nqueue
        && s.replicas[r].pass.value.q in s.replicas[r].metas && !s.replicas[r].pass.value.finished
    case PassDump(r) =>
      && r in s.replicas && s.replicas[r].pass.Some?
      && (s.replicas[r].pass.value.q >= cfg.nqueue || s.replicas[r].pass.value.finished)
      && s.replicas[r].pass.value.now < TWO_64
    case OfferSync(r, c, q) => r in s.replicas && (c, q) in s.replicas[r].view && s.replicas[r].view[(c, q)].prevMagic
    case GetBegin(r, id, client) =>
      && r in s.replicas && id !in s.replicas[r].gets && client in s.clients
      && (s.clients[client].c, s.clients[client].q) in s.replicas[r].view
      && s.replicas[r].trunc < TWO_64
    case GetSample(r, id, _) => r in s.replicas && id in s.replicas[r].gets && s.replicas[r].trunc < TWO_64
    case GetTurn(r, id) =>
      && r in s.replicas && id in s.replicas[r].gets && !s.replicas[r].gets[id].prevStored
      && s.replicas[r].applied <= |s.log|
      && s.replicas[r].gets[id].q in s.replicas[r].metas
      && Sorted(s.replicas[r].metas[s.replicas[r].gets[id].q])
    case GetStorePrev(r, id) =>
      && r in s.replicas && id in s.replicas[r].gets && !s.replicas[r].gets[id].prevStored
      && (s.replicas[r].gets[id].c, s.replicas[r].gets[id].q) in s.replicas[r].view
    case GetStoreNext(r, id) =>
      && r in s.replicas && id in s.replicas[r].gets && s.replicas[r].gets[id].prevStored
      && (s.replicas[r].gets[id].c, s.replicas[r].gets[id].q) in s.replicas[r].view
    case GetAbort(r, id) => r in s.replicas && id in s.replicas[r].gets
    case Receive(client, resp) =>
      && client in s.clients && resp in s.sent
      && resp.c == s.clients[client].c && resp.q == s.clients[client].q
    case Assign(client, c, q) => InGroup(cfg, g, q)
  }

  function PassProposes(pass: Scanning): u64
    requires pass.now < TWO_64
  {
    Proposed(Pass(map[], pass.cp, pass.finished), pass.now)
  }

  function With(s: Group, r: int, rep: Replica): Group { s.(replicas := s.replicas[r := rep]) }

  ghost function Do(cfg: Config, g: nat, s: Group, step: Step): Group
    requires cfg.ngroup > 0 && Enabled(cfg, g, s, step)
  {
    match step
    case Choose(inst) => s.(log := s.log + [inst])
    case Execute(r) =>
      var rep := s.replicas[r];
      var (metas, view) := ExecuteInstance(cfg, rep.metas, rep.view, rep.applied, s.log[rep.applied]);
      With(s, r, rep.(applied := rep.applied + 1, metas := metas, view := view))
    case Restart(r) => With(s, r, Restarted(s.replicas[r]))
    case LoadCheckpoint(r, donor) =>
      var cp := s.replicas[donor].cp;
      With(s, r, Restarted(s.replicas[r].(cp := cp, trunc := After(cp))))
    case Truncate(r, t) => With(s, r, s.replicas[r].(trunc := t))
    case MakeCheckPoint(r) =>
      var rep := s.replicas[r];
      var pass := ScanFrom(cfg, rep.view, rep.metas, g, NO_CURSOR);
      With(s, r, rep.(metas := pass.metas, cp := Dump(rep.cp, Proposed(pass, rep.applied))))
    case PassBegin(r) => With(s, r, s.replicas[r].(pass := Some(Scanning(s.replicas[r].applied, g, NO_CURSOR, false))))
    case PassQueue(r) =>
      var rep := s.replicas[r];
      var one := ScanOne(cfg, rep.view, rep.metas, rep.pass.value.q, rep.pass.value.cp);
      With(s, r, rep.(metas := one.metas,
        pass := Some(Scanning(rep.pass.value.now, rep.pass.value.q + cfg.ngroup, one.cp, one.finished))))
    case PassDump(r) =>
      var rep := s.replicas[r];
      With(s, r, rep.(cp := Dump(rep.cp, PassProposes(rep.pass.value)), pass := None))
    case OfferSync(r, c, q) => s.(offered := s.offered + {(c, q, s.replicas[r].view[(c, q)].prev)})
    case GetBegin(r, id, client) =>
      var rep := s.replicas[r];
      var cl := s.clients[client];
      var start := StartOf(rep.view[(cl.c, cl.q)], Request(cl));
      With(s, r, rep.(gets := rep.gets[id :=
        PendingGet(cl.c, cl.q, start.prev, start.next, [], rep.cp, rep.trunc, false)]))
    case GetSample(r, id, min) =>
      var rep := s.replicas[r];
      var p := rep.gets[id];
      With(s, r, rep.(gets := rep.gets[id := if min then p.(minInstance := rep.trunc) else p.(cp := rep.cp)]))
    case GetTurn(r, id) =>
      var rep := s.replicas[r];
      With(s, r, rep.(gets := rep.gets[id := AfterTurn(cfg, rep.gets[id], TurnOf(s.log, rep, rep.gets[id]))]))
    case GetStorePrev(r, id) =>
      var rep := s.replicas[r];
      var p := rep.gets[id];
      var item := rep.view[(p.c, p.q)];
      With(s, r, rep.(view := rep.view[(p.c, p.q) := if p.prev != NO_CURSOR then SetPrev(item, p.prev) else item],
                      gets := rep.gets[id := p.(prevStored := true)]))
    case GetStoreNext(r, id) =>
      var rep := s.replicas[r];
      var p := rep.gets[id];
      var item := rep.view[(p.c, p.q)];
      With(s, r, rep.(view := rep.view[(p.c, p.q) := if p.next != NO_CURSOR then SetNext(item, p.next) else item],
                      gets := rep.gets - {id})).(sent := s.sent + {Response(p.c,
                        p.q, GetResponse(p.items, p.prev, p.next))})
    case GetAbort(r, id) => With(s, r, s.replicas[r].(gets := s.replicas[r].gets - {id}))
    case Receive(client, resp) =>
      s.(clients := s.clients[client := s.clients[client].(cur := SyncCtrls.Cursors(resp.body.prev, resp.body.next))],
         received := s.received + (set x | x in resp.body.items :: (resp.c, resp.q, x)))
    case Assign(client, c, q) =>
      s.(clients := s.clients[client := Client(c, q, SyncCtrls.Cursors(NO_CURSOR, NO_CURSOR))])
  }

  ghost predicate Init(cfg: Config, s: Group) {
    && s.log == [] && s.offered == {} && s.sent == {} && s.clients == map[] && s.received == {}
    && forall r :: r in s.replicas ==>
         && s.replicas[r].applied == 0 && s.replicas[r].trunc == 0 && s.replicas[r].cp == NO_CURSOR
         && s.replicas[r].gets == map[] && s.replicas[r].pass == None
         && (forall q :: q in s.replicas[r].metas <==> 0 <= q < cfg.nqueue)
         && (forall q :: q in s.replicas[r].metas ==> s.replicas[r].metas[q] == [])
         && (forall c, q :: (c, q) in s.replicas[r].view <==> InRange(cfg.nconsumerGroup, cfg.nqueue, c, q))
         && (forall k :: k in s.replicas[r].view ==> s.replicas[r].view[k] == BLANK)
  }

  /** `steps` can be taken one after another from `s`. */
  ghost predicate Runs(cfg: Config, g: nat, s: Group, steps: seq<Step>)
    requires cfg.ngroup > 0
    decreases |steps|
  {
    steps != [] ==> Enabled(cfg, g, s, steps[0]) && Runs(cfg, g, Do(cfg, g, s, steps[0]), steps[1..])
  }

  ghost function Final(cfg: Config, g: nat, s: Group, steps: seq<Step>): Group
    requires cfg.ngroup > 0 && Runs(cfg, g, s, steps)
    decreases |steps|
  {
    if steps == [] then s else Final(cfg, g, Do(cfg, g, s, steps[0]), steps[1..])
  }

  // ---------------------------------------------------------------- what "received" means

  /** The items instance `i` holds for queue `q`. */
  function At(log: Log, q: int, i: int): seq<QItem> {
    if 0 <= i < |log| && i < NO_CURSOR then ItemsAt(log[i], q, i) else []
  }

  datatype Known = Known(cfg: Config, log: Log, received: set<(int, int, QItem)>)

  /** Group `c` has received, or finds in `items`, all that instance `i` holds for it in queue `q`. */
  ghost predicate Has(k: Known, items: seq<QItem>, c: int, q: int, i: int) {
    forall x :: x in At(k.log, q, i) && !k.cfg.skip(x, q, c) ==> (c, q, x) in k.received || x in items
  }

  ghost predicate UpTo(k: Known, items: seq<QItem>, c: int, q: int, p: u64) {
    p < |k.log| && p != NO_CURSOR && forall i :: 0 <= i <= p ==> Has(k, items, c, q, i)
  }

  /** The sentinel acknowledges nothing. */
  ghost predicate Cursor(k: Known, items: seq<QItem>, c: int, q: int, p: u64) {
    p != NO_CURSOR ==> UpTo(k, items, c, q, p)
  }

  ghost predicate Grows(k: Known, l: Known) {
    k.cfg == l.cfg && k.log <= l.log && k.received <= l.received
  }

  lemma CursorGrows(k: Known, l: Known, items: seq<QItem>, c: int, q: int, p: u64)
    requires Grows(k, l) && Cursor(k, items, c, q, p)
    ensures Cursor(l, items, c, q, p)
  {
    if p != NO_CURSOR {
      forall i | 0 <= i <= p ensures Has(l, items, c, q, i) {
        assert Has(k, items, c, q, i);
        assert At(k.log, q, i) == At(l.log, q, i);
      }
    }
  }

  ghost predicate Matters(cfg: Config, g: nat, c: int, q: int)
    requires cfg.ngroup > 0
  {
    (q, c) in cfg.valid && InGroup(cfg, g, q)
  }

  function Knows(cfg: Config, s: Group): Known { Known(cfg, s.log, s.received) }

  // ---------------------------------------------------------------- checkpoints that may be written

  /** Whatever of the group's metas lies at or below `cp` was received by every valid group. */
  ghost predicate PassesReceived(k: Known, g: nat, metas: MetaView, cp: u64)
    requires k.cfg.ngroup > 0
  {
    forall c, q, m: nat :: Matters(k.cfg, g, c, q) && q in metas && m in metas[q] && m < After(cp) ==>
      Has(k, [], c, q, m)
  }

  /** The checkpoint an interleaved pass writes passes nothing that some group still waits for. The source
      makes sure of it only when the pass is one step. */
  ghost predicate Safe(cfg: Config, g: nat, s: Group, step: Step)
    requires cfg.ngroup > 0 && Enabled(cfg, g, s, step)
  {
    step.PassDump? ==>
      var rep := s.replicas[step.r];
      PassesReceived(Knows(cfg, s), g, rep.metas, Dump(rep.cp, PassProposes(rep.pass.value)))
  }

  ghost predicate SafeRun(cfg: Config, g: nat, s: Group, steps: seq<Step>)
    requires cfg.ngroup > 0 && Runs(cfg, g, s, steps)
    decreases |steps|
  {
    steps != [] ==> Safe(cfg, g, s, steps[0]) && SafeRun(cfg, g, Do(cfg, g, s, steps[0]), steps[1..])
  }

  // ---------------------------------------------------------------- the invariant

  ghost predicate OfferInv(k: Known, g: nat, o: (int, int, u64))
    requires k.cfg.ngroup > 0
  {
    Matters(k.cfg, g, o.0, o.1) ==> UpTo(k, [], o.0, o.1, o.2)
  }

  ghost predicate SyncInv(k: Known, g: nat, info: SyncCtrlInfo)
    requires k.cfg.ngroup > 0
  {
    forall d, e :: d in info && e in d.groups && Matters(k.cfg, g, e.groupId, d.queueId) ==>
      UpTo(k, [], e.groupId, d.queueId, e.prev)
  }

  ghost predicate LogInv(k: Known, g: nat)
    requires k.cfg.ngroup > 0
  {
    && |k.log| <= NO_CURSOR
    && (forall i, v :: 0 <= i < |k.log| && v in k.log[i] && v.StoreValue? && v.args.add.Some? ==>
          v.args.add.value.queueId in k.cfg.queues && InGroup(k.cfg, g, v.args.add.value.queueId))
    && (forall i, v :: 0 <= i < |k.log| && v in k.log[i] && v.StoreValue? && v.args.sync.Some? ==>
          SyncInv(k, g, v.args.sync.value))
  }

  /** Whatever was executed and is still owed to some group is among the metas, and every meta stands for
      items. */
  ghost predicate MetasInv(k: Known, g: nat, applied: nat, q: int, metas: seq<u64>)
    requires k.cfg.ngroup > 0
  {
    && Sorted(metas)
    && (forall m :: m in metas ==> m < applied && q in k.cfg.pubQueues && At(k.log, q, m) != [])
    && (forall c, i :: Matters(k.cfg, g, c, q) && 0 <= i < applied && At(k.log, q, i) != [] ==>
          i in metas || Has(k, [], c, q, i))
  }

  ghost predicate ViewInv(k: Known, g: nat, view: View)
    requires k.cfg.ngroup > 0
  {
    && (forall c, q :: (c, q) in view <==> InRange(k.cfg.nconsumerGroup, k.cfg.nqueue, c, q))
    && (forall c, q :: Matters(k.cfg, g, c, q) && (c, q) in view && view[(c, q)].prevMagic ==>
      UpTo(k, [], c, q, view[(c, q)].prev))
  }

  ghost predicate CheckpointInv(k: Known, g: nat, cp: u64)
    requires k.cfg.ngroup > 0
  {
    forall c, q :: Matters(k.cfg, g, c, q) ==> Cursor(k, [], c, q, cp)
  }

  ghost predicate GetInv(k: Known, g: nat, trunc: nat, cp: u64, p: PendingGet)
    requires k.cfg.ngroup > 0
  {
    && InGroup(k.cfg, g, p.q)
    && (Matters(k.cfg, g, p.c, p.q) ==> Cursor(k, [], p.c, p.q, p.prev) && Cursor(k, p.items, p.c, p.q, p.next))
    && (p.next == NO_CURSOR ==> p.items == [])
    && (p.cp != NO_CURSOR ==> cp != NO_CURSOR && p.cp <= cp)
    && p.minInstance <= trunc
  }

  /** What a pass has scanned holds only metas above its proposal, or executed since it began. */
  ghost predicate PassInv(cfg: Config, g: nat, applied: nat, metas: MetaView, pass: Scanning)
    requires cfg.ngroup > 0
  {
    && pass.now <= applied && After(pass.cp) <= applied && pass.q % cfg.ngroup == g % cfg.ngroup
    && (pass.finished ==> pass.cp == NO_CURSOR)
    && (!pass.finished ==> forall q, m :: q in metas && InGroup(cfg, g, q) && q < pass.q && m in metas[q] ==>
          pass.now <= m || (pass.cp != NO_CURSOR && pass.cp < m))
  }

  ghost predicate ReplicaInv(k: Known, g: nat, rep: Replica)
    requires k.cfg.ngroup > 0
  {
    && rep.applied <= |k.log| && After(rep.cp) <= rep.applied && rep.trunc <= After(rep.cp)
    && CheckpointInv(k, g, rep.cp)
    && (forall q :: q in rep.metas <==> 0 <= q < k.cfg.nqueue)
    && AllSorted(rep.metas)
    && (forall q :: q in rep.metas && InGroup(k.cfg, g, q) ==> MetasInv(k, g, rep.applied, q, rep.metas[q]))
    && ViewInv(k, g, rep.view)
    && (forall id :: id in rep.gets ==> GetInv(k, g, rep.trunc, rep.cp, rep.gets[id]))
    && (rep.pass.Some? ==> PassInv(k.cfg, g, rep.applied, rep.metas, rep.pass.value))
  }

  ghost predicate ResponseInv(k: Known, g: nat, resp: Response)
    requires k.cfg.ngroup > 0
  {
    Matters(k.cfg, g, resp.c, resp.q) ==> Cursor(k, resp.body.items, resp.c, resp.q, resp.body.next)
  }

  ghost predicate ClientInv(k: Known, g: nat, cl: Client)
    requires k.cfg.ngroup > 0
  {
    InGroup(k.cfg, g, cl.q) && (Matters(k.cfg, g, cl.c, cl.q) ==> Cursor(k, [], cl.c, cl.q, cl.cur.next))
  }

  ghost predicate Inv(cfg: Config, g: nat, s: Group)
    requires cfg.ngroup > 0
  {
    var k := Knows(cfg, s);
    && LogInv(k, g)
    && (forall r :: r in s.replicas ==> ReplicaInv(k, g, s.replicas[r]))
    && (forall o :: o in s.offered ==> OfferInv(k, g, o))
    && (forall resp :: resp in s.sent ==> ResponseInv(k, g, resp))
    && (forall cl :: cl in s.clients ==> ClientInv(k, g, s.clients[cl]))
  }
}
