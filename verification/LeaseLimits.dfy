/** The conditions of Leases are exact: with a read that is late by two milliseconds, or after a harmful
    restart of a lock node, there can be two masters.

    The runs are put together from small ones: a node catches up with the log; a scheduler asks a node that is
    up to date, gets the lock and is master; a newcomer joins, watches the record and waits until it may ask.
    After a harmful restart two nodes that executed the same log hold records of different versions, and each
    of them accepts a request that the other one refuses. Of the runs to such a restart one is spelled out: two
    schedulers ask at once, the lease of the one that got the lock runs out, the cleaner deletes the record, and
    the mirror executes all that while the checkpoint on disk stays at the lock that was released. */
module LeaseLimits {
  import opened CursorId
  import opened Options
  import opened LockDbs
  import opened LockMgrs
  import opened LockRecovery
  import LockRun
  import opened KeepMasters
  import opened Leases

  // ---------------------------------------------------------------- runs put together

  predicate Restarts(step: Step) { step.NodeStep? && step.step.Crash? }

  /** Where a run leads in which no lock node restarts. */
  ghost function Outcome(c: Setting, w: World, steps: seq<Step>): Option<World> {
    if && |w.log| <= NO_CURSOR && Runs(c, w, steps) && |Final(c, w, steps).log| <= NO_CURSOR
       && forall i :: 0 <= i < |steps| ==> !Restarts(steps[i])
    then Some(Final(c, w, steps)) else None
  }

  ghost predicate Leads(c: Setting, w: World, steps: seq<Step>, w': World) { Outcome(c, w, steps) == Some(w') }

  lemma {:induction false} LeadsCarefully(c: Setting, w: World, steps: seq<Step>, w': World)
    requires Leads(c, w, steps, w')
    ensures CarefulRun(c, w, steps)
    decreases |steps|
  {
    hide Do, Enabled;
    if steps != [] { LeadsCarefully(c, Do(c, w, steps[0]), steps[1..], w'); }
  }

  lemma Stay(c: Setting, w: World)
    requires |w.log| <= NO_CURSOR
    ensures Leads(c, w, [], w)
  {
  }

  lemma {:induction false} Compose(c: Setting, w: World, s: seq<Step>, w1: World, t: seq<Step>, w2: World)
    requires Leads(c, w, s, w1) && Leads(c, w1, t, w2)
    ensures Leads(c, w, s + t, w2)
    decreases |s|
  {
    hide Do, Enabled;
    if s == [] {
      assert s + t == t;
    } else {
      assert (s + t)[0] == s[0] && (s + t)[1..] == s[1..] + t;
      Compose(c, Do(c, w, s[0]), s[1..], w1, t, w2);
    }
  }

  lemma Then(c: Setting, w: World, s: seq<Step>, w1: World, step: Step)
    requires Leads(c, w, s, w1) && Enabled(c, w1, step) && !Restarts(step) && |Do(c, w1, step).log| <= NO_CURSOR
    ensures Leads(c, w, s + [step], Do(c, w1, step))
  {
    hide Do, Enabled;
    assert [step][1..] == [];
    Stay(c, Do(c, w1, step));
    assert Leads(c, w1, [step], Do(c, w1, step));
    Compose(c, w, s, w1, [step], Do(c, w1, step));
  }

  ghost predicate CaughtUp(w: World, node: int) { node in w.nodes && w.nodes[node].mapPos == |w.log| }

  /** Nothing but one node's records and the acknowledgements differs. */
  ghost predicate OnlyNode(w: World, w': World, node: int) {
    && w' == w.(nodes := w'.nodes, deadlines := w'.deadlines, acks := w'.acks) && w'.nodes.Keys == w.nodes.Keys
    && forall n :: n in w.nodes && n != node ==> w'.nodes[n] == w.nodes[n]
  }

  /** The node's deadline is what it was, or was set now for a command from instance `m` on. */
  ghost predicate Renewed(c: Setting, w: World, w': World, node: int, m: nat) {
    node in w'.deadlines ==>
      || (node in w.deadlines && w'.deadlines[node] == w.deadlines[node])
      || exists i :: m <= i < |w.log| && w.log[i].Some? &&
           w'.deadlines[node] == w.now + c.clock(node) + w.log[i].value.lease
  }

  lemma {:induction false} CatchUp(c: Setting, w: World, node: int) returns (steps: seq<Step>, w': World)
    requires |w.log| <= NO_CURSOR && node in w.nodes && w.nodes[node].mapPos <= |w.log|
    ensures Leads(c, w, steps, w') && OnlyNode(w, w', node) && CaughtUp(w', node)
    ensures w'.nodes[node].g.map_ == Replay(w.log, w.nodes[node].g.map_, w.nodes[node].mapPos, |w.log|)
    ensures Renewed(c, w, w', node, w.nodes[node].mapPos)
    ensures var n := w.nodes[node]; var g := w'.nodes[node].g;
      w'.nodes[node] == n.(g := n.g.(map_ := g.map_, last := g.last), mapPos := |w.log|)
    decreases |w.log| - w.nodes[node].mapPos
  {
    Stay(c, w);
    if w.nodes[node].mapPos == |w.log| {
      return [], w;
    }
    var step := NodeStep(node, LockRun.StepMap);
    Then(c, w, [], w, step);
    var w1 := Do(c, w, step);
    var more;
    more, w' := CatchUp(c, w1, node);
    steps := [] + [step] + more;
    Compose(c, w, [] + [step], w1, more, w');
    ReplayFirst(w.log, w.nodes[node].g.map_, w.nodes[node].mapPos);
  }

  lemma ReplayFirst(log: Values, s: Entries, m: nat)
    requires m < |log| <= NO_CURSOR
    ensures Replay(log, ApplyValue(s, m, log[m]), m + 1, |log|) == Replay(log, s, m, |log|)
  {
    assert Replay(log, s, m, m + 1) == ApplyValue(s, m, log[m]);
    ReplayComposes(log, s, m, m + 1, |log|);
  }

  /** The request a scheduler makes from what a node holds. */
  function RequestFrom(c: Setting, w: World, id: string, node: int): Request
    requires node in w.nodes
  {
    var s := w.nodes[node].g.map_;
    Request(id, if c.key in s then s[c.key].version else 0, w.now + c.offset(id))
  }

  /** A scheduler that wants the lock asks a node that is up to date, gets the lock and is master. */
  lemma Take(c: Setting, w: World, id: string, node: int) returns (steps: seq<Step>, w': World)
    requires ValidSetting(c) && |w.log| < NO_CURSOR && |w.samples| == |w.log| && CaughtUp(w, node) && id in w.clients
    requires Wants(w.clients[id].watch, id, w.now + c.offset(id), Held(c, w.nodes[node].g.map_))
    ensures Leads(c, w, steps, w') && CaughtUp(w', node) && id in w'.clients
    ensures w'.clients[id].expire == w.now + c.offset(id) + c.lease
    ensures w'.now == w.now && |w'.samples| == |w'.log| && w'.log == w.log + [Lock(c, RequestFrom(c, w, id, node))]
    ensures w'.clients.Keys == w.clients.Keys && forall k :: k in w.clients && k != id ==> w'.clients[k] == w.clients[k]
    ensures w'.nodes.Keys == w.nodes.Keys && forall n :: n in w.nodes && n != node ==> w'.nodes[n] == w.nodes[n]
    ensures w'.nodes[node].g.map_ == w.nodes[node].g.map_[c.key := Entry(|w.log|, id, c.lease)]
  {
    var r := RequestFrom(c, w, id, node);
    var w2;
    steps, w2 := Ask(c, w, id, node);
    hide Leads;
    Then(c, w, steps, w2, Choose(r));
    steps := steps + [Choose(r)];
    var w3 := Do(c, w2, Choose(r));
    Then(c, w, steps, w3, NodeStep(node, LockRun.StepMap));
    steps := steps + [NodeStep(node, LockRun.StepMap)];
    var w4 := Do(c, w3, NodeStep(node, LockRun.StepMap));
    assert |w.log| in w4.acks;
    Then(c, w, steps, w4, Answer(|w.log|));
    steps := steps + [Answer(|w.log|)];
    w' := Do(c, w4, Answer(|w.log|));
  }

  lemma Ask(c: Setting, w: World, id: string, node: int) returns (steps: seq<Step>, w': World)
    requires |w.log| <= NO_CURSOR && node in w.nodes && id in w.clients
    requires Wants(w.clients[id].watch, id, w.now + c.offset(id), Held(c, w.nodes[node].g.map_))
    ensures Leads(c, w, steps, w') && w'.requests == w.requests + {RequestFrom(c, w, id, node)}
    ensures w' == w.(clients := w'.clients, requests := w'.requests)
    ensures w'.clients.Keys == w.clients.Keys && forall k :: k in w.clients && k != id ==> w'.clients[k] == w.clients[k]
  {
    Stay(c, w);
    hide Leads;
    Then(c, w, [], w, Sample(id));
    var w1 := Do(c, w, Sample(id));
    Then(c, w, [] + [Sample(id)], w1, Read(id, node));
    steps := [] + [Sample(id)] + [Read(id, node)];
    w' := Do(c, w1, Read(id, node));
  }

  /** A newcomer joins, reads the record, and waits until it may ask. */
  lemma Wait(c: Setting, w: World, id: string, node: int) returns (steps: seq<Step>, w': World)
    requires |w.log| <= NO_CURSOR && node in w.nodes && id !in w.clients
    ensures Leads(c, w, steps, w') && w' == w.(now := w'.now, clients := w'.clients, requests := w'.requests)
    ensures w'.clients.Keys == w.clients.Keys + {id} && forall k :: k in w.clients ==> w'.clients[k] == w.clients[k]
    ensures Wants(w'.clients[id].watch, id, w'.now + c.offset(id), Held(c, w.nodes[node].g.map_))
  {
    var s := w.nodes[node].g.map_;
    var ms: nat := if c.key in s then s[c.key].lease + 1 else 0;
    Stay(c, w);
    hide Leads;
    Then(c, w, [], w, Join(id));
    var w1 := Do(c, w, Join(id));
    Then(c, w, [] + [Join(id)], w1, Sample(id));
    var w2 := Do(c, w1, Sample(id));
    Then(c, w, [] + [Join(id)] + [Sample(id)], w2, Read(id, node));
    var w3 := Do(c, w2, Read(id, node));
    Then(c, w, [] + [Join(id)] + [Sample(id)] + [Read(id, node)], w3, Tick(ms));
    steps := [] + [Join(id)] + [Sample(id)] + [Read(id, node)] + [Tick(ms)];
    w' := Do(c, w3, Tick(ms));
  }

  // ---------------------------------------------------------------- a harmful restart makes two masters

  /** Two nodes that executed the same log hold records of different versions for the lock. */
  ghost predicate Split(c: Setting, w: World, bad: int, good: int) {
    && |w.samples| == |w.log| && bad != good && CaughtUp(w, bad) && CaughtUp(w, good)
    && c.key in w.nodes[bad].g.map_
    && var e := w.nodes[bad].g.map_[c.key];
      && e.version != 0 && e.value in w.clients
      && (c.key in w.nodes[good].g.map_ ==> w.nodes[good].g.map_[c.key].version != e.version)
  }

  lemma SplitMakesTwoMasters(c: Setting, w: World, bad: int, good: int, a: string) returns (steps: seq<Step>, w': World)
    requires ValidSetting(c) && Split(c, w, bad, good) && |w.log| + 2 <= NO_CURSOR && a !in w.clients
    ensures Leads(c, w, steps, w') && a != w.nodes[bad].g.map_[c.key].value
    ensures IsMaster(c, w', a) && IsMaster(c, w', w.nodes[bad].g.map_[c.key].value)
  {
    hide Leads;
    var b := w.nodes[bad].g.map_[c.key].value;
    var s1, w1 := Wait(c, w, a, good);
    var s2, w2 := Take(c, w1, a, good);
    Compose(c, w, s1, w1, s2, w2);
    var s3, w3 := CatchUp(c, w2, bad);
    Compose(c, w, s1 + s2, w2, s3, w3);
    Unmoved(c, w, bad, w1, good, a, w2);
    var s4, w4 := Take(c, w3, b, bad);
    Compose(c, w, s1 + s2 + s3, w3, s4, w4);
    steps, w' := s1 + s2 + s3 + s4, w4;
  }

  /** The node that holds the other record refuses the request that the first one accepted. */
  lemma Unmoved(c: Setting, w: World, bad: int, w1: World, good: int, a: string, w2: World)
    requires Split(c, w, bad, good) && |w.log| + 2 <= NO_CURSOR && w1.nodes == w.nodes
    requires w2.log == w.log + [Lock(c, RequestFrom(c, w1, a, good))]
    ensures Replay(w2.log, w.nodes[bad].g.map_, |w.log|, |w2.log|) == w.nodes[bad].g.map_
  {
    var s := w.nodes[bad].g.map_;
    assert Replay(w2.log, s, |w.log|, |w.log|) == s;
  }

  /** Whoever asked for the lock is known. */
  ghost predicate KnownClients(w: World) {
    && (forall r :: r in w.requests ==> r.client in w.clients)
    && (forall i :: 0 <= i < |w.log| && w.log[i].Some? && w.log[i].value.lease != 0 ==>
      w.log[i].value.value in w.clients)
  }

  lemma StepKeepsKnown(c: Setting, w: World, step: Step)
    requires |w.log| <= NO_CURSOR && KnownClients(w) && Enabled(c, w, step)
    ensures KnownClients(Do(c, w, step))
  {
  }

  lemma {:induction false} RunKeepsKnown(c: Setting, w: World, steps: seq<Step>)
    requires |w.log| <= NO_CURSOR && KnownClients(w) && Runs(c, w, steps)
    ensures KnownClients(Final(c, w, steps))
    decreases |steps|
  {
    if steps != [] {
      StepKeepsKnown(c, w, steps[0]);
      hide Do, Enabled, KnownClients;
      RunKeepsKnown(c, Do(c, w, steps[0]), steps[1..]);
    }
  }

  lemma InvIsTruthful(c: Setting, w: World)
    requires Inv(c, w)
    ensures |w.log| <= NO_CURSOR && Truthful(w.log, |w.log|)
  {
    hide NodeInv, ClientInv;
    forall i | 0 <= i < |w.log| && w.log[i].Some?
      ensures var v := w.log[i].value.version; v < i && (w.log[v].Some? ==> !RefusedAt(w.log, v))
    {
      assert Justified(c, w, i);
    }
  }

  /** A node that did not restart harmfully is exact once it is up to date. */
  lemma UpToDateIsClean(c: Setting, w: World, node: int)
    requires ValidSetting(c) && Inv(c, w) && node in w.nodes
    ensures |w.log| <= NO_CURSOR && w.nodes[node].mapPos <= |w.log|
    ensures SameAt(Replay(w.log, w.nodes[node].g.map_, w.nodes[node].mapPos, |w.log|), Clean(w.log, |w.log|), c.key)
  {
    InvIsHonest(c, w);
    assert NodeInv(c, w.log, w.nodes[node]);
    var n := w.nodes[node];
    hide Inv;
    var t :| n.mapPos <= t <= LockRun.Max(n.reached, n.mapPos) && AheadAt(w.log, n.g.map_, n.mapPos, t, c.key);
    var t' := ReplayStaysAhead(w.log, n.g.map_, n.mapPos, |w.log|, t, c.key);
  }

  /** What a harmful restart leaves on the node once it is up to date: a record that nobody ever held. */
  lemma HarmfulRecord(c: Setting, w: World, bad: int)
    requires ValidSetting(c) && Inv(c, w) && KnownClients(w) && bad in w.nodes
    requires w.nodes[bad].reached <= |w.log| <= NO_CURSOR && !LockRun.Harmless(w.log, w.nodes[bad], c.key)
    ensures var n := LockRun.Do(w.log, w.nodes[bad], LockRun.Crash);
      && n.mapPos <= |w.log|
      && var s := Replay(w.log, n.g.map_, n.mapPos, |w.log|);
        && c.key in s && s[c.key].version != 0 && s[c.key].value in w.clients
        && (c.key in Clean(w.log, |w.log|) ==> Clean(w.log, |w.log|)[c.key].version != s[c.key].version)
  {
    var log, n := w.log, LockRun.Do(w.log, w.nodes[bad], LockRun.Crash);
    assert NodeInv(c, log, w.nodes[bad]);
    LockRun.StepKeepsPos(log, w.nodes[bad], LockRun.Crash);
    InvIsTruthful(c, w);
    var m := HarmfulVersion(c, w, bad);
    assert forall u :: m < u < |log| ==> !Overrides(log[u], c.key) by { hide NodeInv, Justified, ClientInv; }
    hide Inv, NodeInv, Truthful;
    ResurrectedStays(log, n.g.map_, n.mapPos, m, |log|, c.key);
    RefusedIsNoVersion(log, m, |log|, c.key);
  }

  lemma HarmfulVersion(c: Setting, w: World, bad: int) returns (m: nat)
    requires Inv(c, w) && KnownClients(w) && bad in w.nodes
    requires w.nodes[bad].reached <= |w.log| <= NO_CURSOR && !LockRun.Harmless(w.log, w.nodes[bad], c.key)
    ensures var n := LockRun.Do(w.log, w.nodes[bad], LockRun.Crash);
      && c.key !in n.g.map_ && n.mapPos <= m < |w.log| && m != 0
      && FirstCreation(w.log, c.key, n.mapPos, m) && RefusedAt(w.log, m) && w.log[m].value.value in w.clients
  {
    hide Clean;
    var j := After(Recovered(w.nodes[bad].g).disk);
    m :| j <= m < w.nodes[bad].reached && FirstCreation(w.log, c.key, j, m) && RefusedAt(w.log, m);
    assert Creates(w.log[m], c.key);
  }

  function Restarted(c: Setting, w: World, node: int): World
    requires |w.log| <= NO_CURSOR && node in w.nodes
  {
    Do(c, w, NodeStep(node, LockRun.Crash))
  }

  lemma HarmfulSplits(c: Setting, w: World, bad: int, good: int) returns (steps: seq<Step>, w': World)
    requires ValidSetting(c) && Inv(c, w) && KnownClients(w) && bad in w.nodes && good in w.nodes && bad != good
    requires w.nodes[bad].reached <= |w.log| <= NO_CURSOR && !LockRun.Harmless(w.log, w.nodes[bad], c.key)
    ensures Leads(c, Restarted(c, w, bad), steps, w') && Split(c, w', bad, good)
    ensures w'.log == w.log && w'.clients == w.clients
  {
    InvIsShort(c, w);
    hide Leads, Inv, KnownClients, LockRun.Harmless, Shape;
    HarmfulRecord(c, w, bad);
    UpToDateIsClean(c, w, good);
    var w1 := Restarted(c, w, bad);
    var s2, w2 := CatchUp(c, w1, bad);
    var s3, w3 := CatchUp(c, w2, good);
    Compose(c, w1, s2, w2, s3, w3);
    steps, w' := s2 + s3, w3;
  }

  lemma HarmfulContinues(c: Setting, w: World, bad: int, good: int, a: string)
      returns (after: seq<Step>, w': World, b: string)
    requires ValidSetting(c) && Inv(c, w) && KnownClients(w) && bad in w.nodes && good in w.nodes && bad != good
    requires w.nodes[bad].reached <= |w.log| <= NO_CURSOR - 2 && !LockRun.Harmless(w.log, w.nodes[bad], c.key)
    requires a !in w.clients
    ensures Leads(c, Restarted(c, w, bad), after, w')
    ensures a != b && IsMaster(c, w', a) && IsMaster(c, w', b)
  {
    hide Inv, KnownClients, LockRun.Harmless, Split, Leads;
    var s1, w1 := HarmfulSplits(c, w, bad, good);
    var s2;
    s2, w' := SplitMakesTwoMasters(c, w1, bad, good, a);
    Compose(c, Restarted(c, w, bad), s1, w1, s2, w');
    after := s1 + s2;
    SplitHolds(c, w1, bad, good);
    b := w1.nodes[bad].g.map_[c.key].value;
  }

  lemma SplitHolds(c: Setting, w: World, bad: int, good: int)
    requires Split(c, w, bad, good)
    ensures bad in w.nodes && c.key in w.nodes[bad].g.map_
  {
  }

  /** The condition is exact: after any run without a harmful restart, one harmful restart of a lock node
      can be followed, with no further restart and no slow read, by two schedulers that are master at the
      same time, as long as there is another lock node and another scheduler may still join. */
  lemma HarmfulRestartMakesTwoMasters(c: Setting, nodes: set<int>, before: seq<Step>, bad: int, good: int, a: string)
      returns (after: seq<Step>, b: string)
    requires ValidSetting(c) && Runs(c, Start(nodes), before) && CarefulRun(c, Start(nodes), before)
    requires var w := Final(c, Start(nodes), before);
      && bad in w.nodes && good in w.nodes && bad != good && a !in w.clients && |w.log| + 2 <= NO_CURSOR
      && w.nodes[bad].reached <= |w.log| && !LockRun.Harmless(w.log, w.nodes[bad], c.key)
    ensures var w := Do(c, Final(c, Start(nodes), before), NodeStep(bad, LockRun.Crash));
      && Runs(c, w, after) && (forall i :: 0 <= i < |after| ==> !Restarts(after[i])) && a != b
      && IsMaster(c, Final(c, w, after), a) && IsMaster(c, Final(c, w, after), b)
  {
    var w := Final(c, Start(nodes), before);
    StartHoldsInv(c, nodes);
    RunKeepsInv(c, Start(nodes), before);
    RunKeepsKnown(c, Start(nodes), before);
    hide Inv, KnownClients, LockRun.Harmless;
    var w';
    after, w', b := HarmfulContinues(c, w, bad, good, a);
  }

  // ---------------------------------------------------------------- and such a restart can come

  function Contested(c: Setting, a: string, b: string): Values {
    [None, Lock(c, Request(a, 0, c.offset(a))), Lock(c, Request(b, 0, c.offset(b))), Unlock(c, 1)]
  }

  /** Both schedulers find no lock and ask for it; the first one's request is chosen first. */
  lemma BothAsk(c: Setting, nodes: set<int>, node: int, a: string, b: string) returns (steps: seq<Step>, w: World)
    requires ValidSetting(c) && a != b && node in nodes
    ensures Leads(c, Start(nodes), steps, w) && w.nodes == Start(nodes).nodes && w.deadlines == map[]
    ensures w.deletes == {} && w.now == 0
    ensures w.log == [None] && w.times == [0] && Request(a, 0, c.offset(a)) in w.requests
    ensures Request(b, 0, c.offset(b)) in w.requests
  {
    var w0 := Start(nodes);
    Stay(c, w0);
    hide Leads;
    Then(c, w0, [], w0, Join(a));
    var w1 := Do(c, w0, Join(a));
    Then(c, w0, [] + [Join(a)], w1, Join(b));
    var w2 := Do(c, w1, Join(b));
    var s3, w3 := Ask(c, w2, a, node);
    Compose(c, w0, [] + [Join(a)] + [Join(b)], w2, s3, w3);
    var s4, w4 := Ask(c, w3, b, node);
    Compose(c, w0, [] + [Join(a)] + [Join(b)] + s3, w3, s4, w4);
    steps, w := [] + [Join(a)] + [Join(b)] + s3 + s4, w4;
  }

  /** The first one gets the lock and lets its lease run out; the cleaner deletes it. */
  lemma Released(c: Setting, nodes: set<int>, node: int, a: string, b: string) returns (steps: seq<Step>, w: World)
    requires ValidSetting(c) && a != b && node in nodes
    ensures Leads(c, Start(nodes), steps, w) && w.log == Contested(c, a, b) && CaughtUp(w, node)
    ensures var n := w.nodes[node];
      n == LockRun.START.(g := EMPTY_GROUP.(map_ := n.g.map_, last := n.g.last), mapPos := 4)
  {
    var w0 := Start(nodes);
    var ra, rb := Request(a, 0, c.offset(a)), Request(b, 0, c.offset(b));
    var s1, w1 := BothAsk(c, nodes, node, a, b);
    hide Leads;
    Then(c, w0, s1, w1, Choose(ra));
    var w2 := Do(c, w1, Choose(ra));
    Then(c, w0, s1 + [Choose(ra)], w2, Choose(rb));
    var w3 := Do(c, w2, Choose(rb));
    var s4, w4 := CatchUp(c, w3, node);
    FirstOfTwo(c, a, b);
    assert w3.log == [None, Lock(c, ra), Lock(c, rb)];
    Compose(c, w0, s1 + [Choose(ra)] + [Choose(rb)], w3, s4, w4);
    DeadlineIsSet(c, nodes, s1 + [Choose(ra)] + [Choose(rb)] + s4, w4, node);
    Then(c, w0, s1 + [Choose(ra)] + [Choose(rb)] + s4, w4, Tick(c.lease + 1));
    var w5 := Do(c, w4, Tick(c.lease + 1));
    Then(c, w0, s1 + [Choose(ra)] + [Choose(rb)] + s4 + [Tick(c.lease + 1)], w5, ProposeUnlock(node));
    var s6, w6 := s1 + [Choose(ra)] + [Choose(rb)] + s4 + [Tick(c.lease + 1)] + [ProposeUnlock(node)],
      Do(c, w5, ProposeUnlock(node));
    Then(c, w0, s6, w6, ChooseUnlock(1));
    var w7 := Do(c, w6, ChooseUnlock(1));
    var s8, w8 := CatchUp(c, w7, node);
    Compose(c, w0, s6 + [ChooseUnlock(1)], w7, s8, w8);
    steps, w := s6 + [ChooseUnlock(1)] + s8, w8;
  }

  lemma DeadlineIsSet(c: Setting, nodes: set<int>, steps: seq<Step>, w: World, node: int)
    requires ValidSetting(c) && Leads(c, Start(nodes), steps, w) && node in w.nodes && c.key in w.nodes[node].g.map_
    ensures node in w.deadlines
  {
    StartHoldsInv(c, nodes);
    LeadsFinal(c, Start(nodes), steps, w);
    RunKeepsInv(c, Start(nodes), steps);
    assert DeadlineInv(c, w, node);
  }

  lemma FirstOfTwo(c: Setting, a: string, b: string)
    requires ValidSetting(c)
    ensures Replay([None, Lock(c, Request(a, 0, c.offset(a))), Lock(c, Request(b, 0, c.offset(b)))], map[], 0, 3)
         == map[c.key := Entry(1, a, c.lease)]
  {
  }

  /** A run to a harmful restart: the node's mirror has executed the release, but its last checkpoint on
      disk is the lock that was released. */
  lemma HarmfulRestartCanCome(c: Setting, nodes: set<int>, node: int, a: string, b: string) returns (steps: seq<Step>)
    requires ValidSetting(c) && a != b && node in nodes
    ensures Runs(c, Start(nodes), steps) && CarefulRun(c, Start(nodes), steps)
    ensures var w := Final(c, Start(nodes), steps);
      node in w.nodes && w.nodes[node].reached <= |w.log| <= NO_CURSOR && !LockRun.Harmless(w.log, w.nodes[node], c.key)
  {
    var s, w := Released(c, nodes, node, a, b);
    var s', w' := Mirrored(c, w, node, a, b);
    Compose(c, Start(nodes), s, w, s', w');
    steps := s + s';
    LeadsFinal(c, Start(nodes), steps, w');
    SecondRefused(c, a, b);
  }

  lemma SecondRefused(c: Setting, a: string, b: string)
    requires ValidSetting(c)
    ensures LockRecovery.Refused(Contested(c, a, b), 2, 4, c.key)
  {
    var log := Contested(c, a, b);
    assert Clean(log, 2) == map[c.key := Entry(1, a, c.lease)];
    assert FirstCreation(log, c.key, 2, 2) && RefusedAt(log, 2);
  }

  lemma Mirrored(c: Setting, w: World, node: int, a: string, b: string) returns (steps: seq<Step>, w': World)
    requires ValidSetting(c) && w.log == Contested(c, a, b) && CaughtUp(w, node)
    requires var n := w.nodes[node];
      n == LockRun.START.(g := EMPTY_GROUP.(map_ := n.g.map_, last := n.g.last), mapPos := 4)
    ensures Leads(c, w, steps, w') && w'.log == w.log && node in w'.nodes && w'.nodes[node].reached == 4
    ensures var g := w'.nodes[node].g; g.mirror == map[] && g.disk == 1 && g.restart == NO_CURSOR
  {
    Stay(c, w);
    hide Leads;
    var m0 := NodeStep(node, LockRun.StepMirror(false));
    var m1 := NodeStep(node, LockRun.StepMirror(true));
    Then(c, w, [], w, m0);
    var w1 := Do(c, w, m0);
    Then(c, w, [] + [m0], w1, m1);
    var w2 := Do(c, w1, m1);
    Then(c, w, [] + [m0] + [m1], w2, m0);
    var w3 := Do(c, w2, m0);
    Then(c, w, [] + [m0] + [m1] + [m0], w3, m0);
    w' := Do(c, w3, m0);
    steps := [] + [m0] + [m1] + [m0] + [m0];
  }

  // ---------------------------------------------------------------- a slow read makes two masters

  /** With a delay of two milliseconds or more two schedulers can be master at once, though no lock node
      ever restarts: `b` samples its clock, then `a` takes the lock, then `b` reads it and counts the
      lease from the older sample. */
  lemma TwoMasters(c: Setting, node: int, a: string, b: string) returns (steps: seq<Step>)
    requires ValidSetting(c) && c.delay >= 2 && a != b
    ensures Runs(c, Start({node}), steps) && CarefulRun(c, Start({node}), steps)
    ensures IsMaster(c, Final(c, Start({node}), steps), a) && IsMaster(c, Final(c, Start({node}), steps), b)
  {
    var w0 := Start({node});
    var s1, w1 := FirstLock(c, node, a, b);
    hide Leads;
    Then(c, w0, s1, w1, Read(b, node));
    var w2 := Do(c, w1, Read(b, node));
    Then(c, w0, s1 + [Read(b, node)], w2, Tick(c.lease - 1));
    var w3 := Do(c, w2, Tick(c.lease - 1));
    var s4, w4 := Take(c, w3, b, node);
    Compose(c, w0, s1 + [Read(b, node)] + [Tick(c.lease - 1)], w3, s4, w4);
    steps := s1 + [Read(b, node)] + [Tick(c.lease - 1)] + s4;
    LeadsFinal(c, w0, steps, w4);
  }

  lemma LeadsFinal(c: Setting, w: World, steps: seq<Step>, w': World)
    requires Leads(c, w, steps, w')
    ensures |w.log| <= NO_CURSOR && Runs(c, w, steps) && CarefulRun(c, w, steps) && Final(c, w, steps) == w'
  {
    LeadsCarefully(c, w, steps, w');
  }

  /** `b` sampled its clock at time 0; `a` takes the lock at time 2. */
  lemma FirstLock(c: Setting, node: int, a: string, b: string) returns (steps: seq<Step>, w: World)
    requires ValidSetting(c) && a != b
    ensures Leads(c, Start({node}), steps, w) && CaughtUp(w, node) && w.now == 2 && |w.log| == |w.samples| == 2
    ensures b in w.clients && w.clients[b] == NEWCOMER.(sampled := Some(c.offset(b)))
    ensures a in w.clients && w.clients[a].expire == 2 + c.offset(a) + c.lease
    ensures w.nodes[node].g.map_ == map[c.key := Entry(1, a, c.lease)]
  {
    var w0 := Start({node});
    Stay(c, w0);
    hide Leads;
    Then(c, w0, [], w0, Join(a));
    var w1 := Do(c, w0, Join(a));
    Then(c, w0, [] + [Join(a)], w1, Join(b));
    var w2 := Do(c, w1, Join(b));
    Then(c, w0, [] + [Join(a)] + [Join(b)], w2, Sample(b));
    var w3 := Do(c, w2, Sample(b));
    Then(c, w0, [] + [Join(a)] + [Join(b)] + [Sample(b)], w3, Tick(2));
    var w4 := Do(c, w3, Tick(2));
    var s0 := [] + [Join(a)] + [Join(b)] + [Sample(b)] + [Tick(2)];
    var s5, w5 := CatchUp(c, w4, node);
    Compose(c, w0, s0, w4, s5, w5);
    var s6, w6 := Take(c, w5, a, node);
    Compose(c, w0, s0 + s5, w5, s6, w6);
    steps, w := s0 + s5 + s6, w6;
  }
}
