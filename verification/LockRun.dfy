/** One node of the lock service over whole runs: the map and the mirror execute the log in order, the
    mirror behind; the cleaning thread reads its three values one at a time; the process may stop and
    recover at any point. */
module LockRun {
  import opened CursorId
  import opened Options
  import opened LockDbs
  import opened LockMgrs
  import opened LockRecovery

  datatype Cleaner =
    | Idle
    | SawNow(now: u64)
    | SawMemory(now: u64, memory: u64)
    | SawLast(now: u64, memory: u64, last: u64)

  /** The map executed all instances below `mapPos`, the mirror those below `mirrorPos`; `reached` is the
      furthest the mirror ever was. */
  datatype Node = Node(g: GroupState, mapPos: nat, mirrorPos: nat, cleaner: Cleaner, reached: nat)

  datatype Step =
    | StepMap
    | StepMirror(sync: bool)
    | Crash
    | ReadNow(now: u64)
    | ReadMemory
    | ReadLast
    | Write

  const START := Node(EMPTY_GROUP, 0, 0, Idle, 0)

  /** The instance being decided is never past what the map executed. */
  ghost predicate Enabled(log: Values, n: Node, step: Step) {
    match step
    case StepMap => n.mapPos < |log|
    case StepMirror(_) => n.mirrorPos < n.mapPos && n.mirrorPos < |log|
    case Crash => true
    case ReadNow(now) => n.cleaner.Idle? && now <= n.mapPos
    case ReadMemory => n.cleaner.SawNow?
    case ReadLast => n.cleaner.SawMemory?
    case Write => n.cleaner.SawLast?
  }

  function Do(log: Values, n: Node, step: Step): Node
    requires |log| <= NO_CURSOR && Enabled(log, n, step)
  {
    match step
    case StepMap => n.(g := ExecuteOnMap(n.g, n.mapPos, log[n.mapPos]), mapPos := n.mapPos + 1)
    case StepMirror(sync) =>
      n.(g := ExecuteOnMirror(n.g, n.mirrorPos, log[n.mirrorPos], sync), mirrorPos := n.mirrorPos + 1,
         reached := if n.reached <= n.mirrorPos then n.mirrorPos + 1 else n.reached)
    case Crash =>
      var g := Recovered(n.g);
      Node(g, After(g.disk), After(g.disk), Idle, if n.reached < After(g.disk) then After(g.disk) else n.reached)
    case ReadNow(now) => n.(cleaner := SawNow(now))
    case ReadMemory => n.(cleaner := SawMemory(n.cleaner.now, n.g.memory))
    case ReadLast => n.(cleaner := SawLast(n.cleaner.now, n.cleaner.memory, n.g.last))
    case Write =>
      var c := n.cleaner;
      n.(g := if MayWriteRestart(c.now, c.memory, c.last) then n.g.(restart := Dec(c.now)) else n.g, cleaner := Idle)
  }

  ghost predicate Runs(log: Values, n: Node, steps: seq<Step>)
    requires |log| <= NO_CURSOR
    decreases |steps|
  {
    steps != [] ==> Enabled(log, n, steps[0]) && Runs(log, Do(log, n, steps[0]), steps[1..])
  }

  ghost function Final(log: Values, n: Node, steps: seq<Step>): Node
    requires |log| <= NO_CURSOR && Runs(log, n, steps)
    decreases |steps|
  {
    if steps == [] then n else Final(log, Do(log, n, steps[0]), steps[1..])
  }

  // ---------------------------------------------------------------- where checkpoints stand

  /** No lock or string command in the instances lo, ..., hi - 1. */
  ghost predicate Quiet(log: Values, lo: nat, hi: nat) { forall i :: lo <= i < hi && i < |log| ==> log[i].None? }

  ghost predicate CleanerInv(log: Values, n: Node) {
    match n.cleaner
    case Idle => true
    case SawNow(now) => now <= n.mapPos
    case SawMemory(now, memory) => now <= n.mapPos && After(memory) <= n.mirrorPos
    case SawLast(now, memory, last) => now <= n.mapPos && After(memory) <= n.mirrorPos && Quiet(log, After(last), now)
  }

  ghost predicate PosInv(log: Values, n: Node) {
    && |log| <= NO_CURSOR
    && n.mirrorPos <= n.mapPos <= |log| && n.mirrorPos <= n.reached <= |log|
    && After(n.g.disk) <= n.mirrorPos && After(n.g.memory) <= n.mirrorPos
    && After(n.g.last) <= n.mapPos && Quiet(log, After(n.g.last), n.mapPos)
    && After(n.g.restart) <= |log| && Quiet(log, n.mirrorPos, After(n.g.restart))
    && CleanerInv(log, n)
  }

  lemma StepKeepsPos(log: Values, n: Node, step: Step)
    requires PosInv(log, n) && Enabled(log, n, step)
    ensures PosInv(log, Do(log, n, step))
  {
  }

  // ---------------------------------------------------------------- what the records hold for one key

  /** The records hold for `x` what the clean run holds for it at some time from `m` to `r`. */
  ghost predicate KeyAhead(log: Values, s: Entries, m: nat, r: nat, x: string)
    requires r <= |log| <= NO_CURSOR
  {
    exists t :: m <= t <= r && AheadAt(log, s, m, t, x)
  }

  function Max(a: nat, b: nat): nat { if a < b then b else a }

  ghost predicate KeyInv(log: Values, n: Node, x: string)
    requires PosInv(log, n)
  {
    && KeyAhead(log, n.g.mirror, n.mirrorPos, n.reached, x)
    && KeyAhead(log, n.g.map_, n.mapPos, Max(n.reached, n.mapPos), x)
  }

  /** Stopping now does no harm to `x`: the mirror holds it, or the first command that will be found to
      create it was accepted the first time. */
  ghost predicate Harmless(log: Values, n: Node, x: string)
    requires n.reached <= |log| <= NO_CURSOR
  {
    x in n.g.mirror || !Refused(log, After(Recovered(n.g).disk), n.reached, x)
  }

  lemma AheadAfter(log: Values, s: Entries, m: nat, r: nat, r': nat, x: string)
    requires Honest(log) && m < |log| && r <= |log| && KeyAhead(log, s, m, r, x)
    requires r' == if r <= m then m + 1 else r
    ensures KeyAhead(log, ApplyValue(s, m, log[m]), m + 1, r', x)
  {
    hide AheadAt;
    var t :| m <= t <= r && AheadAt(log, s, m, t, x);
    ApplyAgain(log, s, m, t, x);
    var t' := if AheadAt(log, ApplyValue(s, m, log[m]), m + 1, m + 1, x) then m + 1 else t;
    AheadIsLater(log, ApplyValue(s, m, log[m]), m + 1, t', x);
  }

  lemma {:induction false} QuietKeeps(log: Values, s: Entries, lo: nat, hi: nat)
    requires lo <= hi <= |log| <= NO_CURSOR && Quiet(log, lo, hi)
    ensures Replay(log, s, lo, hi) == s
    decreases hi
  {
    if lo < hi { QuietKeeps(log, s, lo, hi - 1); }
  }

  /** Restarting the replay at `j`: later past nothing but instances without commands, or earlier. */
  lemma AheadFrom(log: Values, s: Entries, m: nat, r: nat, j: nat, r': nat, x: string)
    requires Honest(log) && m <= r <= |log| && j <= |log| && KeyAhead(log, s, m, r, x) && Quiet(log, m, j)
    requires r' == if r < j then j else r
    requires x in s || !Refused(log, j, r, x)
    ensures KeyAhead(log, s, j, r', x)
  {
    var t :| m <= t <= r && AheadAt(log, s, m, t, x);
    if t < j {
      QuietKeeps(log, Clean(log, t), t, j);
      ReplayComposes(log, map[], 0, t, j);
      assert AheadAt(log, s, j, j, x);
    } else {
      assert AheadAt(log, s, j, t, x);
    }
  }

  lemma NoReservedKeys(log: Values, t: nat, x: string)
    requires Honest(log) && t <= |log| && x in Clean(log, t)
    ensures !Reserved(x)
  {
    WrittenByItsVersion(log, t, x);
  }

  lemma RecoveredMapIsMirror(log: Values, s: Entries, m: nat, r: nat, x: string)
    requires Honest(log) && r <= |log| && KeyAhead(log, s, m, r, x)
    ensures KeyAhead(log, UserEntries(s), m, r, x)
  {
    var t :| m <= t <= r && AheadAt(log, s, m, t, x);
    if x in s { NoReservedKeys(log, t, x); }
    assert AheadAt(log, UserEntries(s), m, t, x);
  }

  lemma AheadWidens(log: Values, s: Entries, m: nat, r: nat, r': nat, x: string)
    requires r <= r' <= |log| <= NO_CURSOR && KeyAhead(log, s, m, r, x)
    ensures KeyAhead(log, s, m, r', x)
  {
    hide AheadAt;
    var t :| m <= t <= r && AheadAt(log, s, m, t, x);
  }

  lemma StepKeepsKey(log: Values, n: Node, step: Step, x: string)
    requires Honest(log) && PosInv(log, n) && KeyInv(log, n, x) && Enabled(log, n, step)
    requires step.Crash? ==> Harmless(log, n, x)
    ensures PosInv(log, Do(log, n, step)) && KeyInv(log, Do(log, n, step), x)
  {
    StepKeepsPos(log, n, step);
    match step
    case StepMap => MapStepKeeps(log, n, x);
    case StepMirror(sync) => MirrorStepKeeps(log, n, sync, x);
    case Crash => CrashKeeps(log, n, x);
    case _ =>
      hide KeyAhead, CleanerInv, Quiet;
      assert Do(log, n, step).g.mirror == n.g.mirror && Do(log, n, step).g.map_ == n.g.map_;
  }

  lemma MapStepKeeps(log: Values, n: Node, x: string)
    requires Honest(log) && PosInv(log, n) && KeyInv(log, n, x) && Enabled(log, n, StepMap)
    requires PosInv(log, Do(log, n, StepMap))
    ensures KeyInv(log, Do(log, n, StepMap), x)
  {
    hide KeyAhead, Honest, Quiet, Apply, CleanerInv;
    AheadAfter(log, n.g.map_, n.mapPos, Max(n.reached, n.mapPos), Max(n.reached, n.mapPos + 1), x);
  }

  lemma MirrorStepKeeps(log: Values, n: Node, sync: bool, x: string)
    requires Honest(log) && PosInv(log, n) && KeyInv(log, n, x) && Enabled(log, n, StepMirror(sync))
    requires PosInv(log, Do(log, n, StepMirror(sync)))
    ensures KeyInv(log, Do(log, n, StepMirror(sync)), x)
  {
    hide KeyAhead, Honest, Quiet, CleanerInv;
    var n' := Do(log, n, StepMirror(sync));
    assert n'.g.mirror == ApplyValue(n.g.mirror, n.mirrorPos, log[n.mirrorPos]);
    AheadAfter(log, n.g.mirror, n.mirrorPos, n.reached, n'.reached, x);
    AheadWidens(log, n.g.map_, n.mapPos, Max(n.reached, n.mapPos), Max(n'.reached, n.mapPos), x);
  }

  lemma CrashKeeps(log: Values, n: Node, x: string)
    requires Honest(log) && PosInv(log, n) && KeyInv(log, n, x) && Harmless(log, n, x)
    requires PosInv(log, Do(log, n, Crash))
    ensures KeyInv(log, Do(log, n, Crash), x)
  {
    QuietAfterCrash(log, n);
    hide KeyAhead, Honest, Quiet, CleanerInv, Refused;
    var n' := Do(log, n, Crash);
    AheadFrom(log, n.g.mirror, n.mirrorPos, n.reached, n'.mirrorPos, n'.reached, x);
    RecoveredMapIsMirror(log, n.g.mirror, n'.mirrorPos, n'.reached, x);
  }

  lemma QuietAfterCrash(log: Values, n: Node)
    requires PosInv(log, n)
    ensures Quiet(log, n.mirrorPos, After(Recovered(n.g).disk))
  {
  }

  // ---------------------------------------------------------------- whole runs

  lemma {:induction false} RunKeepsPos(log: Values, n: Node, steps: seq<Step>)
    requires PosInv(log, n) && Runs(log, n, steps)
    ensures PosInv(log, Final(log, n, steps))
    decreases |steps|
  {
    if steps != [] {
      StepKeepsPos(log, n, steps[0]);
      RunKeepsPos(log, Do(log, n, steps[0]), steps[1..]);
    }
  }

  /** No crash of the run does harm to `x`. */
  ghost predicate HarmlessRun(log: Values, n: Node, steps: seq<Step>, x: string)
    requires |log| <= NO_CURSOR && Runs(log, n, steps)
    decreases |steps|
  {
    steps != [] ==>
      (steps[0].Crash? ==> n.reached <= |log| && Harmless(log, n, x))
        && HarmlessRun(log, Do(log, n, steps[0]), steps[1..], x)
  }

  lemma {:induction false} RunKeepsKey(log: Values, n: Node, steps: seq<Step>, x: string)
    requires Honest(log) && PosInv(log, n) && KeyInv(log, n, x) && Runs(log, n, steps) && HarmlessRun(log, n, steps, x)
    ensures PosInv(log, Final(log, n, steps)) && KeyInv(log, Final(log, n, steps), x)
    decreases |steps|
  {
    if steps != [] {
      hide KeyInv, PosInv, Harmless;
      StepKeepsKey(log, n, steps[0], x);
      RunKeepsKey(log, Do(log, n, steps[0]), steps[1..], x);
    }
  }

  /** A written restart checkpoint is sound, however its reads were interleaved with execution and with
      crashes: the mirror has executed every command at or below it, and so it has for the disk checkpoint. */
  lemma CheckpointsAreSound(log: Values, steps: seq<Step>, i: nat)
    requires |log| <= NO_CURSOR && Runs(log, START, steps)
    ensures var n := Final(log, START, steps);
      i < |log| && log[i].Some? && (i < After(n.g.restart) || i < After(n.g.disk)) ==> i < n.mirrorPos
  {
    RunKeepsPos(log, START, steps);
  }

  lemma StartHoldsKey(log: Values, x: string)
    requires |log| <= NO_CURSOR
    ensures PosInv(log, START) && KeyInv(log, START, x)
  {
    assert AheadAt(log, map[], 0, 0, x);
  }

  /** Over every run in which no crash does harm to `x`, through any number of replays and restart
      checkpoints: once the map has executed as far as the mirror ever got, it holds for `x` exactly what
      one clean execution holds, and so does a mirror that is not behind where it was. */
  lemma KeyRecoversOverRuns(log: Values, steps: seq<Step>, x: string)
    requires Honest(log) && Runs(log, START, steps) && HarmlessRun(log, START, steps, x)
    ensures var n := Final(log, START, steps);
      && n.mirrorPos <= n.mapPos <= |log|
      && (n.reached <= n.mapPos ==> SameAt(n.g.map_, Clean(log, n.mapPos), x))
      && (n.mirrorPos == n.reached ==> SameAt(n.g.mirror, Clean(log, n.mirrorPos), x))
  {
    StartHoldsKey(log, x);
    RunKeepsKey(log, START, steps, x);
    hide Runs, Final, HarmlessRun;
  }

  lemma WithoutDeletesHarmless(log: Values, n: Node, x: string)
    requires Honest(log) && NoDeletes(log) && PosInv(log, n) && KeyInv(log, n, x)
    ensures Harmless(log, n, x)
  {
    if x !in n.g.mirror {
      var t :| n.mirrorPos <= t <= n.reached && AheadAt(log, n.g.mirror, n.mirrorPos, t, x);
      var j := After(Recovered(n.g).disk);
      NothingRefusedWithoutDeletes(log, j, t, x);
      forall i | j <= i < n.reached && FirstCreation(log, x, j, i) && x != "" ensures !RefusedAt(log, i) {
        if i >= t { LaterCreationAccepted(log, n, t, i, x); }
      }
    }
  }

  /** Whatever the mirror has not reached again is still ahead of it. */
  lemma LaterCreationAccepted(log: Values, n: Node, t: nat, i: nat, x: string)
    requires |log| <= NO_CURSOR && NoDeletes(log) && t <= i < |log| && x !in Clean(log, t) && x != ""
    requires FirstCreation(log, x, t, i)
    ensures !RefusedAt(log, i)
  {
    AbsentUntilCreated(log, Clean(log, t), t, i, x);
    ReplayComposes(log, map[], 0, t, i);
  }

  lemma {:induction false} NoDeletesIsHarmless(log: Values, n: Node, steps: seq<Step>, x: string)
    requires Honest(log) && NoDeletes(log) && PosInv(log, n) && KeyInv(log, n, x) && Runs(log, n, steps)
    ensures HarmlessRun(log, n, steps, x)
    decreases |steps|
  {
    if steps != [] {
      WithoutDeletesHarmless(log, n, x);
      hide KeyInv, Harmless;
      StepKeepsKey(log, n, steps[0], x);
      NoDeletesIsHarmless(log, Do(log, n, steps[0]), steps[1..], x);
    }
  }

  /** Without deletions no crash does harm, and the map comes back as a whole. */
  lemma RecoveryIsClean(log: Values, steps: seq<Step>)
    requires Honest(log) && NoDeletes(log) && Runs(log, START, steps)
    ensures var n := Final(log, START, steps);
      && n.mirrorPos <= n.mapPos <= |log|
      && (n.reached <= n.mapPos ==> n.g.map_ == Clean(log, n.mapPos))
  {
    var n := Final(log, START, steps);
    RunKeepsPos(log, START, steps);
    forall x: string ensures n.reached <= n.mapPos ==> SameAt(n.g.map_, Clean(log, n.mapPos), x) {
      StartHoldsKey(log, x);
      NoDeletesIsHarmless(log, START, steps, x);
      KeyRecoversOverRuns(log, steps, x);
    }
    hide Runs, Final;
    if n.reached <= n.mapPos { SameEverywhere(n.g.map_, Clean(log, n.mapPos)); }
  }
}
