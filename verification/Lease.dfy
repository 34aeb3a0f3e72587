/** One scheduler master: the lease protocol over whole runs. */
module Leases {
  import opened CursorId
  import opened Options
  import opened LockDbs
  import opened LockMgrs
  import opened LockRecovery
  import LockRun
  import opened KeepMasters

  // Schedulers time leases on clocks that run at the same rate from different origins; any lock node may
  // answer, from a map that is behind, or that was recovered; requests may execute late or twice, answers may
  // be lost, schedulers and lock nodes may restart, and the cleaner of a node deletes records that are overdue
  // by that node's clock.

  /** `delay` bounds the time from a clock sample to the read that follows it; a client's clock shows
      the true time plus its `offset`, a node's clock the true time plus its `clock`. */
  datatype Setting = Setting(key: string, lease: u64, delay: nat, offset: string -> nat, clock: int -> nat)

  ghost predicate ValidSetting(c: Setting) { c.key != "" && !Reserved(c.key) && 0 < c.lease < FOREVER }

  datatype Request = Request(client: string, version: u64, sample: nat)

  /** `sampled` is the clock sample of a round whose read is still to come. */
  datatype Client = Client(watch: Watch, sampled: Option<nat>, expire: nat)

  /** `times[i]` is when instance i was chosen, `samples[i]` the sample its request was made with; `deadlines`
      are the nodes' expiry times of the lock's record, by their own clocks; `acks` are the requests that some
      node accepted when it executed them. Instance 0 is never a lock command: a
      record's version is at least 1. */
  datatype World = World(
    now: nat, log: Values, times: seq<nat>, samples: seq<nat>,
    nodes: map<int, LockRun.Node>, deadlines: map<int, nat>, requests: set<Request>,
      deletes: set<u64>, acks: set<nat>, clients: map<string, Client>)

  datatype Step =
    | Tick(ms: nat)
    | Join(id: string)
    | Sample(id: string)
    | Read(id: string, node: int)
    | Choose(r: Request)
    | ChooseOther
    | ProposeUnlock(node: int)
    | ChooseUnlock(version: u64)
    | NodeStep(node: int, step: LockRun.Step)
    | Answer(i: nat)

  /** What GetLockInfo answers from a node's records. */
  function Held(c: Setting, s: Entries): LockInfo { if c.key in s then Info(s[c.key]) else NotExist }

  predicate Success(log: Values, i: nat)
    requires |log| <= NO_CURSOR
  {
    i < |log| && log[i].Some? && log[i].value.lease != 0 && Accepts(Clean(log, i), log[i].value)
  }

  function Lock(c: Setting, r: Request): Value { Some(Command(Kind.AcquireLock, c.key, r.version, r.client, c.lease)) }

  function Unlock(c: Setting, version: u64): Value {
    Some(Command(Kind.AcquireLock, c.key, version, "__lock__:__clean_thread__", 0))
  }

  /** A node that executes a lock request accepts it. */
  predicate Acknowledges(log: Values, n: LockRun.Node, step: LockRun.Step) {
    step.StepMap? && n.mapPos < |log| && log[n.mapPos].Some? && log[n.mapPos].value.lease != 0
    && Accepts(n.g.map_, log[n.mapPos].value)
  }

  /** A node sets the deadline of a record when it accepts the command that makes the record, and anew for all
      records when it restarts. */
  function Deadlines(c: Setting, w: World, node: int, step: LockRun.Step): map<int, nat>
    requires node in w.nodes
  {
    if Acknowledges(w.log, w.nodes[node], step) then
      w.deadlines[node := w.now + c.clock(node) + w.log[w.nodes[node].mapPos].value.lease]
    else if step.Crash? then w.deadlines[node := w.now + c.clock(node) + c.lease]
    else w.deadlines
  }

  ghost predicate Enabled(c: Setting, w: World, step: Step)
    requires |w.log| <= NO_CURSOR
  {
    match step
    case Tick(_) => true
    case Join(_) => true
    case Sample(id) => id in w.clients
    case Read(id, node) =>
      && id in w.clients && w.clients[id].sampled.Some? && node in w.nodes
      && w.now + c.offset(id) <= w.clients[id].sampled.value + c.delay
    case Choose(r) => r in w.requests && |w.log| < NO_CURSOR
    case ChooseOther => |w.log| < NO_CURSOR
    case ProposeUnlock(node) =>
      && node in w.nodes && c.key in w.nodes[node].g.map_
      && node in w.deadlines && w.now + c.clock(node) > w.deadlines[node]
    case ChooseUnlock(version) => version in w.deletes && |w.log| < NO_CURSOR
    case NodeStep(node, step) => node in w.nodes && LockRun.Enabled(w.log, w.nodes[node], step)
    case Answer(i) =>
      i in w.acks && i < |w.log| && i < |w.samples| && w.log[i].Some? && w.log[i].value.value in w.clients
  }

  function Append(w: World, v: Value, sample: nat): World {
    w.(log := w.log + [v], times := w.times + [w.now], samples := w.samples + [sample])
  }

  const NEWCOMER := Client(Watch(0, 0), None, 0)

  function Do(c: Setting, w: World, step: Step): World
    requires |w.log| <= NO_CURSOR && Enabled(c, w, step)
  {
    match step
    case Tick(ms) => w.(now := w.now + ms)
    case Join(id) => w.(clients := w.clients[id := NEWCOMER])
    case Sample(id) => w.(clients := w.clients[id := w.clients[id].(sampled := Some(w.now + c.offset(id)))])
    case Read(id, node) =>
      var cl := w.clients[id];
      var info := Held(c, w.nodes[node].g.map_);
      var watch := Observe(cl.watch, cl.sampled.value, info);
      w.(clients := w.clients[id := cl.(watch := watch, sampled := None)],
         requests := if Wants(cl.watch, id, cl.sampled.value, info)
           then w.requests + {Request(id, watch.version, cl.sampled.value)} else w.requests)
    case Choose(r) => Append(w, Lock(c, r), r.sample)
    case ChooseOther => Append(w, None, 0)
    case ProposeUnlock(node) => w.(deletes := w.deletes + {w.nodes[node].g.map_[c.key].version})
    case ChooseUnlock(version) => Append(w, Unlock(c, version), 0)
    case NodeStep(node, step) =>
      var n := w.nodes[node];
      w.(nodes := w.nodes[node := LockRun.Do(w.log, n, step)], deadlines := Deadlines(c, w, node, step),
         acks := if Acknowledges(w.log, n, step) then w.acks + {n.mapPos} else w.acks)
    case Answer(i) =>
      var id := w.log[i].value.value;
      w.(clients := w.clients[id := w.clients[id].(expire := w.samples[i] + c.lease)])
  }

  /** A scheduler takes itself for the master until its own clock reaches the time it renewed to. */
  predicate IsMaster(c: Setting, w: World, id: string) {
    id in w.clients && w.now + c.offset(id) < w.clients[id].expire
  }

  function Start(nodes: set<int>): World {
    World(0, [None], [0], [0], map n | n in nodes :: LockRun.START, map[], {}, {}, {}, map[])
  }

  ghost predicate Runs(c: Setting, w: World, steps: seq<Step>)
    requires |w.log| <= NO_CURSOR
    decreases |steps|
  {
    steps != [] ==>
      Enabled(c, w, steps[0]) && |Do(c, w, steps[0]).log| <= NO_CURSOR && Runs(c, Do(c, w, steps[0]), steps[1..])
  }

  ghost function Final(c: Setting, w: World, steps: seq<Step>): World
    requires |w.log| <= NO_CURSOR && Runs(c, w, steps)
    decreases |steps|
  {
    if steps == [] then w else Final(c, Do(c, w, steps[0]), steps[1..])
  }

  /** A lock node may restart here without harm to the lock: its mirror holds the record, or the first
      request that its replay will find to create it was accepted. */
  ghost predicate Careful(c: Setting, w: World, step: Step)
    requires |w.log| <= NO_CURSOR
  {
    step.NodeStep? && step.step.Crash? && step.node in w.nodes ==>
      w.nodes[step.node].reached <= |w.log| && LockRun.Harmless(w.log, w.nodes[step.node], c.key)
  }

  ghost predicate CarefulRun(c: Setting, w: World, steps: seq<Step>)
    requires |w.log| <= NO_CURSOR && Runs(c, w, steps)
    decreases |steps|
  {
    steps != [] ==> Careful(c, w, steps[0]) && CarefulRun(c, Do(c, w, steps[0]), steps[1..])
  }

  // ---------------------------------------------------------------- the invariant

  /** The true time at which the lease taken by instance `i` ends for its owner. */
  function Expiry(c: Setting, w: World, i: nat): int
    requires i < |w.log| && i < |w.samples| && w.log[i].Some?
  {
    w.samples[i] + c.lease - c.offset(w.log[i].value.value)
  }

  ghost predicate Shape(c: Setting, w: World) {
    && 1 <= |w.log| <= NO_CURSOR && |w.times| == |w.log| && |w.samples| == |w.log| && w.log[0].None?
    && (forall i, j :: 0 <= i < j < |w.times| ==> w.times[i] <= w.times[j])
    && (forall i :: 0 <= i < |w.times| ==> w.times[i] <= w.now)
    && (forall i :: 0 <= i < |w.log| && w.log[i].Some? ==>
      w.log[i].value.kind.AcquireLock? && w.log[i].value.key == c.key && w.log[i].value.lease in {0, c.lease})
  }

  /** A request names a version that its sender either owns or has watched for a whole lease. */
  ghost predicate Backed(c: Setting, w: World, client: string, version: u64, sample: nat)
    requires Shape(c, w)
  {
    version != 0 ==>
      && Success(w.log, version)
      && (w.log[version].value.value == client || sample - c.offset(client) + c.delay > w.times[version] + c.lease)
  }

  ghost predicate Justified(c: Setting, w: World, i: nat)
    requires Shape(c, w) && i < |w.log| && w.log[i].Some?
  {
    var cmd := w.log[i].value;
    && cmd.version < i
    && if cmd.lease == 0 then Success(w.log, cmd.version) && w.times[i] > w.times[cmd.version] + c.lease
       else w.samples[i] - c.offset(cmd.value) <= w.times[i] && Backed(c, w, cmd.value, cmd.version, w.samples[i])
  }

  ghost predicate ClientInv(c: Setting, w: World, id: string, cl: Client)
    requires Shape(c, w)
  {
    && (cl.watch.version != 0 ==>
          Success(w.log, cl.watch.version)
            && cl.watch.overdue - c.offset(id) + c.delay >= w.times[cl.watch.version] + c.lease)
    && (cl.sampled.Some? ==> cl.sampled.value - c.offset(id) <= w.now)
    && (cl.expire != 0 ==> exists i: nat ::
      Success(w.log, i) && w.log[i].value.value == id && cl.expire == w.samples[i] + c.lease)
  }

  /** A node's records are those of the clean run at some time, as far as the lock is concerned. */
  ghost predicate NodeInv(c: Setting, log: Values, n: LockRun.Node) {
    LockRun.PosInv(log, n) && LockRun.KeyInv(log, n, c.key)
  }

  /** No node takes the lock's record for overdue before the lease is over, counted from when it was chosen. */
  ghost predicate DeadlineInv(c: Setting, w: World, node: int)
    requires Shape(c, w) && node in w.nodes
  {
    var s := w.nodes[node].g.map_;
    c.key in s ==>
      && node in w.deadlines && s[c.key].version < |w.times|
      && w.times[s[c.key].version] + c.lease <= w.deadlines[node] - c.clock(node)
  }

  ghost predicate Inv(c: Setting, w: World) {
    && Shape(c, w)
    && (forall i {:trigger Justified(c, w, i)} :: 0 <= i < |w.log| && w.log[i].Some? ==> Justified(c, w, i))
    && (forall r :: r in w.requests ==>
      r.sample - c.offset(r.client) <= w.now && Backed(c, w, r.client, r.version, r.sample))
    && (forall v :: v in w.deletes ==> Success(w.log, v) && w.now > w.times[v] + c.lease)
    && (forall id :: id in w.clients ==> ClientInv(c, w, id, w.clients[id]))
    && (forall n :: n in w.nodes ==> NodeInv(c, w.log, w.nodes[n]))
    && (forall n :: n in w.nodes ==> DeadlineInv(c, w, n))
    && (forall i :: i in w.acks ==> Success(w.log, i))
  }

  // ---------------------------------------------------------------- appending to the log

  lemma {:induction false} CleanOfPrefix(a: Values, b: Values, t: nat)
    requires t <= |a| <= |b| <= NO_CURSOR && a == b[..|a|]
    ensures Clean(a, t) == Clean(b, t)
    decreases t
  {
    if t > 0 {
      CleanOfPrefix(a, b, t - 1);
      assert a[t - 1] == b[t - 1];
    }
  }

  lemma SuccessStays(a: Values, b: Values, i: nat)
    requires |a| <= |b| <= NO_CURSOR && a == b[..|a|] && Success(a, i)
    ensures Success(b, i) && b[i] == a[i]
  {
    CleanOfPrefix(a, b, i);
    assert a[i] == b[i];
  }

  /** The same world with a longer log or a later time. */
  ghost predicate Later(c: Setting, a: World, b: World) {
    && Shape(c, a) && Shape(c, b) && a.now <= b.now
    && |a.log| <= |b.log| && a.log == b.log[..|a.log|]
      && a.times == b.times[..|a.log|] && a.samples == b.samples[..|a.log|]
  }

  lemma SameTimes(c: Setting, a: World, b: World, i: nat)
    requires Later(c, a, b) && i < |a.log|
    ensures b.times[i] == a.times[i] && b.samples[i] == a.samples[i] && b.log[i] == a.log[i]
  {
  }

  lemma BackedStays(c: Setting, a: World, b: World, client: string, version: u64, sample: nat)
    requires Later(c, a, b) && Backed(c, a, client, version, sample)
    ensures Backed(c, b, client, version, sample)
  {
    if version != 0 {
      SuccessStays(a.log, b.log, version);
      SameTimes(c, a, b, version);
    }
  }

  lemma JustifiedStays(c: Setting, a: World, b: World, i: nat)
    requires Later(c, a, b) && i < |a.log| && a.log[i].Some? && Justified(c, a, i)
    ensures b.log[i].Some? && Justified(c, b, i)
  {
    SameTimes(c, a, b, i);
    var cmd := a.log[i].value;
    if cmd.lease == 0 {
      SuccessStays(a.log, b.log, cmd.version);
      SameTimes(c, a, b, cmd.version);
    } else {
      BackedStays(c, a, b, cmd.value, cmd.version, a.samples[i]);
    }
  }

  lemma ClientStays(c: Setting, a: World, b: World, id: string, cl: Client)
    requires Later(c, a, b) && ClientInv(c, a, id, cl)
    ensures ClientInv(c, b, id, cl)
  {
    if cl.watch.version != 0 {
      SuccessStays(a.log, b.log, cl.watch.version);
      SameTimes(c, a, b, cl.watch.version);
    }
    if cl.expire != 0 {
      var i: nat :| Success(a.log, i) && a.log[i].value.value == id && cl.expire == a.samples[i] + c.lease;
      SuccessStays(a.log, b.log, i);
      SameTimes(c, a, b, i);
    }
  }

  /** What a node holds is judged by instances that are already in the log. */
  lemma NodeStays(c: Setting, a: Values, b: Values, n: LockRun.Node)
    requires |a| <= |b| <= NO_CURSOR && a == b[..|a|] && NodeInv(c, a, n)
    ensures NodeInv(c, b, n)
  {
    AheadStays(a, b, n.g.mirror, n.mirrorPos, n.reached, c.key);
    AheadStays(a, b, n.g.map_, n.mapPos, LockRun.Max(n.reached, n.mapPos), c.key);
    hide LockRun.KeyAhead;
  }

  lemma AheadStays(a: Values, b: Values, s: Entries, m: nat, r: nat, x: string)
    requires r <= |a| <= |b| <= NO_CURSOR && a == b[..|a|] && LockRun.KeyAhead(a, s, m, r, x)
    ensures LockRun.KeyAhead(b, s, m, r, x)
  {
    var t :| m <= t <= r && AheadAt(a, s, m, t, x);
    CleanOfPrefix(a, b, t);
    if LockRecovery.Refused(b, m, t, x) {
      var i :| m <= i < t && FirstCreation(b, x, m, i) && RefusedAt(b, i);
      CleanOfPrefix(a, b, i);
      assert FirstCreation(a, x, m, i) && RefusedAt(a, i);
    }
    assert AheadAt(b, s, m, t, x);
  }

  lemma LaterKeepsInv(c: Setting, a: World, b: World)
    requires Inv(c, a) && Later(c, a, b) && b.requests == a.requests && b.deletes == a.deletes && b.clients == a.clients
    requires b.nodes == a.nodes && b.deadlines == a.deadlines && b.acks == a.acks
    requires forall i :: |a.log| <= i < |b.log| && b.log[i].Some? ==> Justified(c, b, i)
    ensures Inv(c, b)
  {
    forall i | 0 <= i < |b.log| && b.log[i].Some? ensures Justified(c, b, i) {
      if i < |a.log| {
        SameTimes(c, a, b, i);
        JustifiedStays(c, a, b, i);
      }
    }
    hide Justified, Success;
    forall r | r in b.requests
      ensures Backed(c, b, r.client, r.version, r.sample)
    {
      BackedStays(c, a, b, r.client, r.version, r.sample);
    }
    forall v | v in b.deletes ensures Success(b.log, v) && b.now > b.times[v] + c.lease {
      DeleteStays(c, a, b, v);
    }
    forall id | id in b.clients ensures ClientInv(c, b, id, b.clients[id]) { ClientStays(c, a, b, id, a.clients[id]); }
    forall n | n in b.nodes ensures NodeInv(c, b.log, b.nodes[n]) { NodeStays(c, a.log, b.log, a.nodes[n]); }
    forall n | n in b.nodes ensures DeadlineInv(c, b, n) { DeadlineStays(c, a, b, n); }
    forall i | i in b.acks ensures Success(b.log, i) { SuccessStays(a.log, b.log, i); }
  }

  lemma DeadlineStays(c: Setting, a: World, b: World, n: int)
    requires Later(c, a, b) && n in a.nodes && DeadlineInv(c, a, n)
    requires b.nodes == a.nodes && b.deadlines == a.deadlines
    ensures DeadlineInv(c, b, n)
  {
    var s := a.nodes[n].g.map_;
    if c.key in s { SameTimes(c, a, b, s[c.key].version); }
  }

  lemma DeleteStays(c: Setting, a: World, b: World, v: nat)
    requires Later(c, a, b) && Success(a.log, v) && a.now > a.times[v] + c.lease
    ensures Success(b.log, v) && b.now > b.times[v] + c.lease
  {
    SuccessStays(a.log, b.log, v);
    SameTimes(c, a, b, v);
  }

  lemma AppendIsLater(c: Setting, w: World, v: Value, sample: nat)
    requires Shape(c, w) && |w.log| < NO_CURSOR
    requires v.Some? ==> v.value.kind.AcquireLock? && v.value.key == c.key && v.value.lease in {0, c.lease}
    ensures Later(c, w, Append(w, v, sample))
  {
  }

  lemma AppendKeepsInv(c: Setting, w: World, step: Step)
    requires ValidSetting(c) && Inv(c, w) && Enabled(c, w, step)
    requires step.Choose? || step.ChooseOther? || step.ChooseUnlock?
    ensures Inv(c, Do(c, w, step))
  {
    var w' := Do(c, w, step);
    NewIsJustified(c, w, step);
    hide NodeInv, ClientInv, Justified, Success;
    LaterKeepsInv(c, w, w');
  }

  lemma NewIsJustified(c: Setting, w: World, step: Step)
    requires ValidSetting(c) && Inv(c, w) && Enabled(c, w, step)
    requires step.Choose? || step.ChooseOther? || step.ChooseUnlock?
    ensures var w' := Do(c, w, step);
      Later(c, w, w') && (w'.log[|w.log|].Some? ==> Justified(c, w', |w.log|))
  {
    var w' := Do(c, w, step);
    hide NodeInv, ClientInv;
    match step {
      case Choose(r) =>
        AppendIsLater(c, w, Lock(c, r), r.sample);
        BackedStays(c, w, w', r.client, r.version, r.sample);
      case ChooseOther => AppendIsLater(c, w, None, 0);
      case ChooseUnlock(version) =>
        AppendIsLater(c, w, Unlock(c, version), 0);
        DeleteStays(c, w, w', version);
    }
  }

  // ---------------------------------------------------------------- the other steps

  lemma HeldIsSuccess(c: Setting, log: Values, n: LockRun.Node)
    requires |log| <= NO_CURSOR && NodeInv(c, log, n)
    ensures c.key in n.g.map_ ==>
      var e := n.g.map_[c.key];
      Success(log, e.version) && e.value == log[e.version].value.value && e.lease == log[e.version].value.lease
  {
    var t :| n.mapPos <= t <= LockRun.Max(n.reached, n.mapPos) && AheadAt(log, n.g.map_, n.mapPos, t, c.key);
    if c.key in n.g.map_ { WrittenByItsVersion(log, t, c.key); }
  }

  /** What any node answers is a lease that was really taken. */
  lemma SeenIsSuccess(c: Setting, w: World, node: int)
    requires Inv(c, w) && node in w.nodes
    ensures var info := Held(c, w.nodes[node].g.map_);
      info.Info? ==>
        && Success(w.log, info.entry.version) && info.entry.version != 0
        && info.entry.value == w.log[info.entry.version].value.value && info.entry.lease == c.lease
  {
    assert NodeInv(c, w.log, w.nodes[node]);
    HeldIsSuccess(c, w.log, w.nodes[node]);
    hide NodeInv, ClientInv, Justified, Backed, DeadlineInv;
  }

  lemma ReadKeepsInv(c: Setting, w: World, id: string, node: int)
    requires ValidSetting(c) && Inv(c, w) && Enabled(c, w, Read(id, node))
    ensures Inv(c, Do(c, w, Read(id, node)))
  {
    var w' := Do(c, w, Read(id, node));
    SeenIsSuccess(c, w, node);
    var cl := w.clients[id];
    var info := Held(c, w.nodes[node].g.map_);
    hide Held, Success, Justified, NodeInv;
    var now := cl.sampled.value;
    var watch := Observe(cl.watch, now, info);
    assert ClientInv(c, w, id, cl);
    if info.Info? { assert w.times[info.entry.version] <= w.now by { SuccessIsInLog(w.log, info.entry.version); } }
    assert ClientInv(c, w, id, cl.(watch := watch, sampled := None));
    assert Wants(cl.watch, id, now, info) ==> Backed(c, w, id, watch.version, now);
    ClientsKeepInv(c, w, w');
  }

  lemma SuccessIsInLog(log: Values, i: nat)
    requires |log| <= NO_CURSOR && Success(log, i)
    ensures i < |log| && log[i].Some?
  {
  }

  /** Steps that leave log and time alone. */
  lemma ClientsKeepInv(c: Setting, a: World, b: World)
    requires Inv(c, a) && b.log == a.log && b.times == a.times && b.samples == a.samples && b.now == a.now
    requires forall v :: v in b.deletes ==> Success(a.log, v) && a.now > a.times[v] + c.lease
    requires forall r :: r in b.requests ==>
      r.sample - c.offset(r.client) <= a.now && Backed(c, a, r.client, r.version, r.sample)
    requires forall id :: id in b.clients ==> ClientInv(c, a, id, b.clients[id])
    requires Shape(c, b) && forall n :: n in b.nodes ==> NodeInv(c, a.log, b.nodes[n]) && DeadlineInv(c, b, n)
    requires forall i :: i in b.acks ==> Success(a.log, i)
    ensures Inv(c, b)
  {
    hide Success, NodeInv;
    forall i | 0 <= i < |b.log| && b.log[i].Some? ensures Justified(c, b, i) { assert Justified(c, a, i); }
    forall r | r in b.requests
      ensures Backed(c, b, r.client, r.version, r.sample)
    {
      assert Backed(c, a, r.client, r.version, r.sample);
    }
    forall id | id in b.clients
      ensures ClientInv(c, b, id, b.clients[id])
    {
      assert ClientInv(c, a, id, b.clients[id]);
    }
  }

  lemma InvIsHonest(c: Setting, w: World)
    requires ValidSetting(c) && Inv(c, w)
    ensures Honest(w.log)
  {
    hide NodeInv, ClientInv, Backed, Success;
    forall i | 0 <= i < |w.log| && w.log[i].Some? ensures w.log[i].value.version <= i { assert Justified(c, w, i); }
  }

  /** A node that accepts a lock request, ahead of the clean run or not, accepts it rightly. */
  lemma AckIsSuccess(c: Setting, w: World, node: int)
    requires Inv(c, w) && node in w.nodes && Acknowledges(w.log, w.nodes[node], LockRun.StepMap)
    ensures Success(w.log, w.nodes[node].mapPos)
  {
    var n := w.nodes[node];
    var m := n.mapPos;
    assert NodeInv(c, w.log, n) && Justified(c, w, m);
    hide NodeInv, Justified, ClientInv, Inv;
    var t :| m <= t <= LockRun.Max(n.reached, m) && AheadAt(w.log, n.g.map_, m, t, c.key);
    if t > m && c.key in Clean(w.log, t) {
      StableSince(w.log, m, t, c.key);
    } else if t > m {
      assert FirstCreation(w.log, c.key, m, m);
    }
  }

  /** A node executes a command after it was chosen, so its deadline is late enough; what a restart brings
      back was chosen even longer ago. */
  lemma DeadlinesKeepInv(c: Setting, w: World, node: int, step: LockRun.Step)
    requires ValidSetting(c) && Inv(c, w) && Enabled(c, w, NodeStep(node, step))
    requires NodeInv(c, w.log, LockRun.Do(w.log, w.nodes[node], step))
    ensures var w' := Do(c, w, NodeStep(node, step));
      Shape(c, w') && forall n :: n in w'.nodes ==> DeadlineInv(c, w', n)
  {
    var w', n := Do(c, w, NodeStep(node, step)), LockRun.Do(w.log, w.nodes[node], step);
    InvIsShort(c, w);
    DeadlinesOf(c, w);
    hide Inv, NodeInv, LockRun.Do, Deadlines, Acknowledges;
    HeldIsInLog(c, w.log, n);
    NewDeadline(c, w, node, step);
    assert w' == w.(nodes := w.nodes[node := n], deadlines := Deadlines(c, w, node, step), acks := w'.acks);
    OtherDeadlines(c, w, w', node);
  }

  lemma OtherDeadlines(c: Setting, w: World, w': World, node: int)
    requires Shape(c, w) && node in w.nodes && forall n :: n in w.nodes ==> DeadlineInv(c, w, n)
    requires w' == w.(nodes := w'.nodes, deadlines := w'.deadlines, acks := w'.acks) && w'.nodes.Keys == w.nodes.Keys
    requires forall k :: k in w.nodes && k != node ==> w'.nodes[k] == w.nodes[k]
    requires forall k :: k != node ==> (k in w.deadlines <==> k in w'.deadlines)
    requires forall k :: k != node && k in w.deadlines ==> w'.deadlines[k] == w.deadlines[k]
    ensures Shape(c, w') && forall n :: n in w.nodes && n != node ==> DeadlineInv(c, w', n)
  {
    forall k | k in w.nodes && k != node ensures DeadlineInv(c, w', k) { assert DeadlineInv(c, w, k); }
  }

  lemma HeldIsInLog(c: Setting, log: Values, n: LockRun.Node)
    requires |log| <= NO_CURSOR && NodeInv(c, log, n)
    ensures c.key in n.g.map_ ==> n.g.map_[c.key].version < |log|
  {
    HeldIsSuccess(c, log, n);
    hide NodeInv;
  }

  lemma DeadlinesOf(c: Setting, w: World)
    requires Inv(c, w)
    ensures forall n :: n in w.nodes ==> DeadlineInv(c, w, n)
  {
  }

  lemma NewDeadline(c: Setting, w: World, node: int, step: LockRun.Step)
    requires Shape(c, w) && node in w.nodes && LockRun.Enabled(w.log, w.nodes[node], step) && DeadlineInv(c, w, node)
    requires var s := LockRun.Do(w.log, w.nodes[node], step).g.map_; c.key in s ==> s[c.key].version < |w.log|
    ensures var s, d := LockRun.Do(w.log, w.nodes[node], step).g.map_, Deadlines(c, w, node, step);
      c.key in s ==> node in d && w.times[s[c.key].version] + c.lease <= d[node] - c.clock(node)
    ensures forall k :: k != node ==> (k in w.deadlines <==> k in Deadlines(c, w, node, step))
    ensures forall k :: k != node && k in w.deadlines ==> Deadlines(c, w, node, step)[k] == w.deadlines[k]
  {
    if !step.Crash? { NewRecord(w.log, w.nodes[node], step, c.key); }
    hide LockRun.Do;
  }

  /** Without a restart a record changes only when the node accepts a lock request. */
  lemma NewRecord(log: Values, n: LockRun.Node, step: LockRun.Step, x: string)
    requires |log| <= NO_CURSOR && LockRun.Enabled(log, n, step) && !step.Crash?
    ensures var s := LockRun.Do(log, n, step).g.map_;
      x in s ==> (x in n.g.map_ && s[x] == n.g.map_[x]) || (Acknowledges(log, n, step) && s[x].version == n.mapPos)
  {
  }

  lemma NodeKeepsInv(c: Setting, w: World, node: int, step: LockRun.Step)
    requires ValidSetting(c) && Inv(c, w) && Enabled(c, w, NodeStep(node, step)) && Careful(c, w, NodeStep(node, step))
    ensures Inv(c, Do(c, w, NodeStep(node, step)))
  {
    InvIsHonest(c, w);
    assert NodeInv(c, w.log, w.nodes[node]);
    LockRun.StepKeepsKey(w.log, w.nodes[node], step, c.key);
    DeadlinesKeepInv(c, w, node, step);
    if Acknowledges(w.log, w.nodes[node], step) { AckIsSuccess(c, w, node); }
    assert NodeInv(c, w.log, LockRun.Do(w.log, w.nodes[node], step));
    hide NodeInv, Success, Justified, ClientInv, LockRun.Do, Acknowledges;
    ClientsKeepInv(c, w, Do(c, w, NodeStep(node, step)));
  }

  lemma StepKeepsInv(c: Setting, w: World, step: Step)
    requires ValidSetting(c) && Inv(c, w) && Enabled(c, w, step) && Careful(c, w, step)
    ensures Inv(c, Do(c, w, step))
  {
    var w' := Do(c, w, step);
    match step
    case Tick(_) => LaterKeepsInv(c, w, w');
    case Join(id) => hide Justified, Success, NodeInv; ClientsKeepInv(c, w, w');
    case Sample(id) =>
      hide Justified, Success, NodeInv;
      assert ClientInv(c, w, id, w.clients[id]);
      ClientsKeepInv(c, w, w');
    case Read(id, node) => ReadKeepsInv(c, w, id, node);
    case ProposeUnlock(node) => CleanKeepsInv(c, w, node);
    case NodeStep(node, step) => NodeKeepsInv(c, w, node, step);
    case Answer(i) => AnswerKeepsInv(c, w, i);
    case _ => AppendKeepsInv(c, w, step);
  }

  lemma CleanKeepsInv(c: Setting, w: World, node: int)
    requires Inv(c, w) && Enabled(c, w, ProposeUnlock(node))
    ensures Inv(c, Do(c, w, ProposeUnlock(node)))
  {
    SeenIsSuccess(c, w, node);
    hide Success, Justified, Backed, ClientInv, NodeInv;
    ClientsKeepInv(c, w, Do(c, w, ProposeUnlock(node)));
  }

  lemma AnswerKeepsInv(c: Setting, w: World, i: nat)
    requires Inv(c, w) && Enabled(c, w, Answer(i))
    ensures Inv(c, Do(c, w, Answer(i)))
  {
    hide Justified, NodeInv;
    SuccessIsInLog(w.log, i);
    hide Success;
    var id := w.log[i].value.value;
    assert ClientInv(c, w, id, w.clients[id]);
    assert ClientInv(c, w, id, w.clients[id].(expire := w.samples[i] + c.lease));
    ClientsKeepInv(c, w, Do(c, w, Answer(i)));
  }

  lemma {:induction false} RunKeepsInv(c: Setting, w: World, steps: seq<Step>)
    requires ValidSetting(c) && Inv(c, w) && Runs(c, w, steps) && CarefulRun(c, w, steps)
    ensures Inv(c, Final(c, w, steps))
    decreases |steps|
  {
    if steps != [] {
      hide Inv, Do, Enabled, Careful;
      assert |w.log| <= NO_CURSOR by { InvIsShort(c, w); }
      StepKeepsInv(c, w, steps[0]);
      RunKeepsInv(c, Do(c, w, steps[0]), steps[1..]);
    }
  }

  lemma InvIsShort(c: Setting, w: World)
    requires Inv(c, w)
    ensures |w.log| <= NO_CURSOR && |w.samples| == |w.log| && Shape(c, w)
  {
  }

  // ---------------------------------------------------------------- leases exclude each other

  /** The record at `j` was written by the last success before `j`. */
  lemma RecordIsLast(c: Setting, w: World, i: nat, j: nat)
    requires ValidSetting(c) && Inv(c, w) && i < j <= |w.log| && Success(w.log, i) && c.key in Clean(w.log, j)
    ensures i <= Clean(w.log, j)[c.key].version
  {
    var v := Clean(w.log, j)[c.key].version;
    assert Clean(w.log, i + 1)[c.key].version == i;
    if v < i { StableSince(w.log, i + 1, j, c.key); }
  }

  lemma {:induction false} LastDelete(log: Values, x: string, i: nat, j: nat) returns (m: nat)
    requires i <= j <= |log| <= NO_CURSOR && x in Clean(log, i) && x !in Clean(log, j)
    ensures i <= m < j && x in Clean(log, m) && log[m].Some? && log[m].value.key == x && log[m].value.lease == 0
    ensures Accepts(Clean(log, m), log[m].value)
    decreases j
  {
    if x in Clean(log, j - 1) { m := j - 1; } else { m := LastDelete(log, x, i, j - 1); }
  }

  lemma ExpiryBound(c: Setting, w: World, i: nat)
    requires Inv(c, w) && Success(w.log, i)
    ensures i < |w.times| == |w.samples| == |w.log| <= NO_CURSOR && w.log[i].Some?
    ensures Expiry(c, w, i) <= w.times[i] + c.lease
  {
    assert Justified(c, w, i);
  }

  lemma TimesGrow(c: Setting, w: World, i: nat, j: nat)
    requires Inv(c, w) && i <= j < |w.times|
    ensures w.times[i] <= w.times[j] <= w.now
  {
  }

  lemma TakenAfterDelete(c: Setting, w: World, i: nat, j: nat)
    requires ValidSetting(c) && Inv(c, w) && i < j < |w.log| && Success(w.log, i) && c.key !in Clean(w.log, j)
    ensures Expiry(c, w, i) < w.times[j]
  {
    ExpiryBound(c, w, i);
    SuccessWrites(c, w, i);
    var m := LastDelete(w.log, c.key, i + 1, j);
    RecordIsLast(c, w, i, m);
    DeletedWhenExpired(c, w, m);
    TimesGrow(c, w, m, j);
    TimesGrow(c, w, i, Clean(w.log, m)[c.key].version);
    hide *;
  }

  lemma SuccessWrites(c: Setting, w: World, i: nat)
    requires Shape(c, w) && Success(w.log, i)
    ensures i < |w.log| && c.key in Clean(w.log, i + 1)
  {
  }

  lemma DeletedWhenExpired(c: Setting, w: World, m: nat)
    requires Inv(c, w) && m < |w.log| && c.key in Clean(w.log, m) && w.log[m].Some? && w.log[m].value.lease == 0
    requires Accepts(Clean(w.log, m), w.log[m].value)
    ensures var v := Clean(w.log, m)[c.key].version; v < |w.times| && w.times[m] > w.times[v] + c.lease
  {
    assert Justified(c, w, m);
  }

  /** The lease at `j` was taken over from the record it found, which its owner held or had watched. */
  lemma TakenOver(c: Setting, w: World, j: nat)
    requires ValidSetting(c) && Inv(c, w) && Success(w.log, j) && c.key in Clean(w.log, j)
    ensures var v := Clean(w.log, j)[c.key].version;
      && v < j < |w.times| == |w.samples| && Success(w.log, v)
      && (w.log[v].value.value == w.log[j].value.value || w.times[j] + c.delay > w.times[v] + c.lease)
  {
    WrittenByItsVersion(w.log, j, c.key);
    assert Justified(c, w, j);
    hide NodeInv, ClientInv, Clean;
  }

  /** Two leases of different owners: the earlier one ends less than `delay` after the later one starts. */
  lemma {:induction false} LeasesExclude(c: Setting, w: World, i: nat, j: nat)
    requires ValidSetting(c) && Inv(c, w) && i < j && Success(w.log, i) && Success(w.log, j)
    requires w.log[i].value.value != w.log[j].value.value
    ensures j < |w.times| && Expiry(c, w, i) < w.times[j] + c.delay
    decreases j
  {
    InvIsShort(c, w);
    hide *;
    ExpiryBound(c, w, i);
    ExpiryBound(c, w, j);
    if c.key in Clean(w.log, j) {
      var v := Clean(w.log, j)[c.key].version;
      TakenOver(c, w, j);
      RecordIsLast(c, w, i, j);
      TimesGrow(c, w, i, v);
      TimesGrow(c, w, v, j);
      if w.log[v].value.value == w.log[j].value.value { LeasesExclude(c, w, i, v); }
    } else {
      TakenAfterDelete(c, w, i, j);
    }
  }

  /** A scheduler that takes itself for the master holds a lease that has not run out. */
  lemma MasterHoldsLease(c: Setting, w: World, id: string) returns (i: nat)
    requires Inv(c, w) && IsMaster(c, w, id)
    ensures Success(w.log, i) && w.log[i].value.value == id && w.now < Expiry(c, w, i)
  {
    assert ClientInv(c, w, id, w.clients[id]);
    i :| Success(w.log, i) && w.log[i].value.value == id && w.clients[id].expire == w.samples[i] + c.lease;
  }

  lemma StartHoldsInv(c: Setting, nodes: set<int>)
    requires ValidSetting(c)
    ensures Inv(c, Start(nodes))
  {
    forall n | n in nodes ensures NodeInv(c, [None], LockRun.START) { LockRun.StartHoldsKey([None], c.key); }
    hide NodeInv;
  }

  /** Of two leases held at the same time the later one was taken less than `delay` ago. */
  lemma LeasesOverlapBriefly(c: Setting, w: World, i: nat, j: nat)
    requires ValidSetting(c) && Inv(c, w) && i < j && Success(w.log, i) && Success(w.log, j)
    requires w.log[i].value.value != w.log[j].value.value && i < |w.samples| && w.now < Expiry(c, w, i)
    ensures j < |w.times| && w.times[j] <= w.now < w.times[j] + c.delay
  {
    LeasesExclude(c, w, i, j);
    TimesGrow(c, w, j, j);
  }

  /** Over every run without a harmful restart, two schedulers take themselves for the master at the same
      time only within `delay` of the moment at which the later of their leases was taken. */
  lemma MastersOverlapBriefly(c: Setting, nodes: set<int>, steps: seq<Step>, a: string, b: string) returns (j: nat)
    requires ValidSetting(c) && Runs(c, Start(nodes), steps) && CarefulRun(c, Start(nodes), steps)
    requires var w := Final(c, Start(nodes), steps); IsMaster(c, w, a) && IsMaster(c, w, b) && a != b
    ensures var w := Final(c, Start(nodes), steps);
      && |w.log| <= NO_CURSOR && Success(w.log, j) && w.log[j].value.value in {a, b}
      && j < |w.times| && w.times[j] <= w.now < w.times[j] + c.delay
  {
    StartHoldsInv(c, nodes);
    RunKeepsInv(c, Start(nodes), steps);
    var w := Final(c, Start(nodes), steps);
    var i := MasterHoldsLease(c, w, a);
    j := MasterHoldsLease(c, w, b);
    hide *;
    if i < j {
      LeasesOverlapBriefly(c, w, i, j);
    } else {
      LeasesOverlapBriefly(c, w, j, i);
      j := i;
    }
  }

  /** Millisecond clocks: there is never more than one master as long as a read follows its sample
      within a millisecond and no restart is harmful. LeaseLimits shows that neither
      can be left out. */
  lemma OneMaster(c: Setting, nodes: set<int>, steps: seq<Step>, a: string, b: string)
    requires ValidSetting(c) && c.delay < 2 && Runs(c, Start(nodes), steps) && CarefulRun(c, Start(nodes), steps)
    ensures var w := Final(c, Start(nodes), steps); IsMaster(c, w, a) && IsMaster(c, w, b) ==> a == b
  {
    StartHoldsInv(c, nodes);
    RunKeepsInv(c, Start(nodes), steps);
    var w := Final(c, Start(nodes), steps);
    if IsMaster(c, w, a) && IsMaster(c, w, b) && a != b { OneLease(c, w, a, b); }
  }

  lemma OneLease(c: Setting, w: World, a: string, b: string)
    requires ValidSetting(c) && Inv(c, w) && c.delay < 2 && IsMaster(c, w, a) && IsMaster(c, w, b)
    ensures a == b
  {
    if a != b {
      var i := MasterHoldsLease(c, w, a);
      var j := MasterHoldsLease(c, w, b);
      hide Inv, Success;
      if j < i { i, j := j, i; }
      LeasesExclude(c, w, i, j);
      TimesGrow(c, w, j, j);
    }
  }
}
