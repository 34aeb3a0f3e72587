/** Recovery of the lock service over a mirror that is ahead of its checkpoint: re-executing commands
    whose effect the records already hold (phxqueue/lock/lockmgr.cpp:86-161,
    phxqueue/lock/locksm.cpp:336-379, phxqueue/lock/cleanthread.cpp:226-259). */
module LockRecovery {
  import opened CursorId
  import opened Options
  import opened LockDbs
  import opened LockMgrs

  type Values = seq<Value>

  function ApplyValue(s: Entries, i: u64, v: Value): Entries { if v.None? then s else Apply(s, i, v.value) }

  /** Executing the instances lo, ..., hi - 1. */
  function Replay(log: Values, s: Entries, lo: nat, hi: nat): Entries
    requires lo <= hi <= |log| <= NO_CURSOR
    decreases hi
  {
    if lo == hi then s else ApplyValue(Replay(log, s, lo, hi - 1), hi - 1, log[hi - 1])
  }

  /** What one clean execution holds before instance `t`. */
  function Clean(log: Values, t: nat): Entries
    requires t <= |log| <= NO_CURSOR
  {
    Replay(log, map[], 0, t)
  }

  /** Nobody asks for a version that was not there yet, and user keys stay out of the reserved space. */
  ghost predicate Honest(log: Values) {
    && |log| <= NO_CURSOR
    && forall i :: 0 <= i < |log| && log[i].Some? ==>
         (log[i].value.version <= i || Unconditional(log[i].value)) && !Reserved(log[i].value.key)
  }

  ghost predicate NoDeletes(log: Values) { forall i :: 0 <= i < |log| && log[i].Some? ==> log[i].value.lease != 0 }

  ghost predicate SameAt(s: Entries, t: Entries, x: string) {
    (x in s <==> x in t) && (x in s ==> s[x] == t[x])
  }

  // ---------------------------------------------------------------- the clean run

  lemma {:induction false} VersionsArePast(log: Values, t: nat, x: string)
    requires t <= |log| <= NO_CURSOR
    ensures x in Clean(log, t) ==> Clean(log, t)[x].version < t
    decreases t
  {
    if t > 0 { VersionsArePast(log, t - 1, x); }
  }

  /** A record was there, unchanged, ever since its version was written, and that command wrote it. */
  lemma {:induction false} StableSince(log: Values, m: nat, t: nat, x: string)
    requires t <= |log| <= NO_CURSOR && x in Clean(log, t) && Clean(log, t)[x].version < m <= t
    ensures x in Clean(log, m) && Clean(log, m)[x] == Clean(log, t)[x]
    decreases t
  {
    if m < t { StableSince(log, m, t - 1, x); }
  }

  lemma WrittenByItsVersion(log: Values, t: nat, x: string)
    requires t <= |log| <= NO_CURSOR && x in Clean(log, t)
    ensures var w := Clean(log, t)[x].version;
      && w < t && log[w].Some? && log[w].value.key == x && log[w].value.lease != 0
      && Clean(log, t)[x] == Entry(w, log[w].value.value, log[w].value.lease)
      && Accepts(Clean(log, w), log[w].value)
  {
    VersionsArePast(log, t, x);
    var w := Clean(log, t)[x].version;
    StableSince(log, w + 1, t, x);
    VersionsArePast(log, w, x);
  }

  lemma {:induction false} StaysPresent(log: Values, m: nat, t: nat, x: string)
    requires m <= t <= |log| <= NO_CURSOR && NoDeletes(log) && x in Clean(log, m)
    ensures x in Clean(log, t)
    decreases t
  {
    if m < t { StaysPresent(log, m, t - 1, x); }
  }

  // ---------------------------------------------------------------- one command executed again

  predicate Creates(v: Value, x: string) { v.Some? && v.value.key == x && v.value.lease != 0 }

  /** Instance `i` is the first from `j` on that would create `x`. */
  ghost predicate FirstCreation(log: Values, x: string, j: nat, i: nat)
    requires i < |log|
  {
    j <= i && Creates(log[i], x) && forall l :: j <= l < i ==> !Creates(log[l], x)
  }

  ghost predicate RefusedAt(log: Values, i: nat)
    requires i < |log| <= NO_CURSOR
  {
    log[i].Some? && !Accepts(Clean(log, i), log[i].value)
  }

  /** The first command between `j` and `t` that would create `x` was refused in the clean run. */
  ghost predicate Refused(log: Values, j: nat, t: nat, x: string)
    requires t <= |log| <= NO_CURSOR
  {
    x != "" && exists i :: j <= i < t && FirstCreation(log, x, j, i) && RefusedAt(log, i)
  }

  /** `s` holds for `x` what the clean run holds at some time `t` not before `m`; when that is nothing,
      the time is `m` itself, or the next command that creates `x` was accepted in the clean run. */
  ghost predicate AheadAt(log: Values, s: Entries, m: nat, t: nat, x: string)
    requires t <= |log| <= NO_CURSOR
  {
    m <= t && SameAt(s, Clean(log, t), x) && (t == m || x in Clean(log, t) || !Refused(log, m, t, x))
  }

  /** Executing instance `m` on records that may already be past it brings no key further from the clean
      run: a key either is still ahead or becomes exactly what the clean run holds after `m`. */
  lemma ApplyAgain(log: Values, s: Entries, m: nat, t: nat, x: string)
    requires Honest(log) && m < |log| && t <= |log| && AheadAt(log, s, m, t, x)
    ensures AheadAt(log, ApplyValue(s, m, log[m]), m + 1, if t == m then m + 1 else t, x)
         || AheadAt(log, ApplyValue(s, m, log[m]), m + 1, m + 1, x)
  {
    if t > m && x in Clean(log, t) {
      if log[m].Some? && log[m].value.key == x { AgainOnPresent(log, s, m, t, x); }
    } else if t > m {
      AgainOnAbsent(log, s, m, t, x);
    }
  }

  lemma {:induction false} NeverEmptyKey(log: Values, t: nat)
    requires t <= |log| <= NO_CURSOR
    ensures "" !in Clean(log, t)
    decreases t
  {
    if t > 0 { NeverEmptyKey(log, t - 1); }
  }

  lemma AgainOnPresent(log: Values, s: Entries, m: nat, t: nat, x: string)
    requires Honest(log) && m < t <= |log| && SameAt(s, Clean(log, t), x) && x in Clean(log, t)
    requires log[m].Some? && log[m].value.key == x
    ensures SameAt(ApplyValue(s, m, log[m]), Clean(log, t), x)
         || SameAt(ApplyValue(s, m, log[m]), Clean(log, m + 1), x)
  {
    var cmd := log[m].value;
    var v := Clean(log, t)[x].version;
    WrittenByItsVersion(log, t, x);
    NeverEmptyKey(log, t);
    if v < m { StableSince(log, m, t, x); }
  }

  /** A missing key stays missing until it is created, and then as in the clean run. */
  lemma AgainOnAbsent(log: Values, s: Entries, m: nat, t: nat, x: string)
    requires m < t <= |log| <= NO_CURSOR && x !in s && x !in Clean(log, t) && !Refused(log, m, t, x)
    ensures var s' := ApplyValue(s, m, log[m]);
      if Creates(log[m], x) && x != "" then SameAt(s', Clean(log, m + 1), x) else x !in s' && !Refused(log, m + 1, t, x)
  {
    if Creates(log[m], x) && x != "" {
      assert FirstCreation(log, x, m, m);
    } else if x != "" {
      forall i | m + 1 <= i < t && FirstCreation(log, x, m + 1, i) ensures !RefusedAt(log, i) {
        assert FirstCreation(log, x, m, i);
      }
    }
  }

  // ---------------------------------------------------------------- replaying a suffix on a later mirror

  lemma {:induction false} ReplayStaysAhead(log: Values, s: Entries, j: nat, m: nat, t: nat, x: string)
      returns (t': nat)
    requires Honest(log) && j <= m <= |log| && t <= |log| && AheadAt(log, s, j, t, x)
    ensures m <= t' <= |log| && t' <= (if t < m then m else t) && AheadAt(log, Replay(log, s, j, m), m, t', x)
    decreases m
  {
    assert |log| <= NO_CURSOR;
    hide AheadAt, Honest, Clean;
    if m == j {
      t' := t;
      assert j <= t by { AheadIsLater(log, s, j, t, x); }
    } else {
      var t1 := ReplayStaysAhead(log, s, j, m - 1, t, x);
      var before := Replay(log, s, j, m - 1);
      ApplyAgain(log, before, m - 1, t1, x);
      t' := if AheadAt(log, ApplyValue(before, m - 1, log[m - 1]), m, m, x) then m else t1;
      AheadIsLater(log, Replay(log, s, j, m), m, t', x);
    }
  }

  lemma AheadIsLater(log: Values, s: Entries, m: nat, t: nat, x: string)
    requires t <= |log| <= NO_CURSOR && AheadAt(log, s, m, t, x)
    ensures m <= t
  {
  }

  /** A key comes back right at every n >= k, deletions or not, when the mirror that executed up to `k` held
      it, or else when the first command from `j` on that creates it was accepted before. */
  lemma KeyRecovers(log: Values, j: nat, k: nat, n: nat, x: string)
    requires Honest(log) && j <= k <= n <= |log| && (x in Clean(log, k) || !Refused(log, j, k, x))
    ensures SameAt(Replay(log, Clean(log, k), j, n), Clean(log, n), x)
  {
    var t := ReplayStaysAhead(log, Clean(log, k), j, n, k, x);
    assert t == n;
  }

  lemma NothingRefusedWithoutDeletes(log: Values, j: nat, t: nat, x: string)
    requires |log| <= NO_CURSOR && NoDeletes(log) && t <= |log| && x !in Clean(log, t)
    ensures !Refused(log, j, t, x)
  {
    forall i | j <= i < t && FirstCreation(log, x, j, i) && x != "" ensures !RefusedAt(log, i) {
      if x in Clean(log, i) { StaysPresent(log, i, t, x); }
    }
  }

  /** Without deletions the replayed records are exactly those of one clean execution. */
  lemma RecoveryWithoutDeletes(log: Values, j: nat, k: nat, n: nat)
    requires Honest(log) && NoDeletes(log) && j <= k <= n <= |log|
    ensures Replay(log, Clean(log, k), j, n) == Clean(log, n)
  {
    forall x: string ensures SameAt(Replay(log, Clean(log, k), j, n), Clean(log, n), x) {
      if x !in Clean(log, k) { NothingRefusedWithoutDeletes(log, j, k, x); }
      KeyRecovers(log, j, k, n, x);
    }
    SameEverywhere(Replay(log, Clean(log, k), j, n), Clean(log, n));
  }

  lemma SameEverywhere(s: Entries, t: Entries)
    requires forall x: string :: SameAt(s, t, x)
    ensures s == t
  {
    forall x: string ensures x in s <==> x in t { assert SameAt(s, t, x); }
    forall x | x in s ensures s[x] == t[x] { assert SameAt(s, t, x); }
  }

  // ---------------------------------------------------------------- the exact condition

  /** Up to `n`, clients send only versions that some command really wrote: the version of a conditional
      command names no refused command on the same key. */
  ghost predicate Truthful(log: Values, n: nat)
    requires n <= |log| <= NO_CURSOR
  {
    forall i :: 0 <= i < n && log[i].Some? && !Unconditional(log[i].value) ==>
      var w := log[i].value.version;
      w < i && log[w].Some? && log[w].value.key == log[i].value.key ==> !RefusedAt(log, w)
  }

  predicate Overrides(v: Value, x: string) { v.Some? && v.value.key == x && Unconditional(v.value) }

  /** `x` was gone when the mirror was left at `k`, the first command that the replay finds to create it
      had been refused, and no unconditional string puts it right before `n`. */
  ghost predicate Resurrects(log: Values, j: nat, k: nat, n: nat, x: string)
    requires j <= k <= n <= |log| <= NO_CURSOR
  {
    x != "" && x !in Clean(log, k) &&
    exists m :: j <= m < k && FirstCreation(log, x, j, m) && RefusedAt(log, m)
      && forall u :: m < u < n ==> !Overrides(log[u], x)
  }

  lemma {:induction false} AbsentUntilCreated(log: Values, s: Entries, j: nat, m: nat, x: string)
    requires j <= m <= |log| <= NO_CURSOR && x !in s
    requires forall i :: j <= i < m ==> !Creates(log[i], x)
    ensures x !in Replay(log, s, j, m)
    decreases m
  {
    if j < m { AbsentUntilCreated(log, s, j, m - 1, x); }
  }

  /** No later command knows the version of a refused one, so what it left by being replayed stays. */
  lemma {:induction false} ResurrectedStays(log: Values, s: Entries, j: nat, m: nat, n: nat, x: string)
    requires j <= m < n <= |log| <= NO_CURSOR && Truthful(log, n) && x !in s && x != ""
    requires FirstCreation(log, x, j, m) && RefusedAt(log, m) && forall u :: m < u < n ==> !Overrides(log[u], x)
    ensures x in Replay(log, s, j, n)
    ensures Replay(log, s, j, n)[x] == Entry(m, log[m].value.value, log[m].value.lease)
    decreases n
  {
    if n == m + 1 {
      AbsentUntilCreated(log, s, j, m, x);
    } else {
      ResurrectedStays(log, s, j, m, n - 1, x);
    }
  }

  lemma RefusedIsNoVersion(log: Values, m: nat, n: nat, x: string)
    requires m < n <= |log| <= NO_CURSOR && RefusedAt(log, m)
    ensures x in Clean(log, n) ==> Clean(log, n)[x].version != m
  {
    if x in Clean(log, n) { WrittenByItsVersion(log, n, x); }
  }

  /** An unconditional string leaves the same record whatever was there. */
  lemma OverriddenRecovers(log: Values, s: Entries, j: nat, u: nat, n: nat, x: string)
    requires Honest(log) && j <= u < n <= |log| && x != "" && Overrides(log[u], x)
    ensures SameAt(Replay(log, s, j, n), Clean(log, n), x)
  {
    assert SameAt(Replay(log, s, j, u + 1), Clean(log, u + 1), x);
    ReplayComposes(log, s, j, u + 1, n);
    var t := ReplayStaysAhead(log, Replay(log, s, j, u + 1), u + 1, n, u + 1, x);
  }

  lemma KeyRecoversUnlessResurrected(log: Values, j: nat, k: nat, n: nat, x: string)
    requires Honest(log) && j <= k <= n <= |log| && !Resurrects(log, j, k, n, x)
    ensures SameAt(Replay(log, Clean(log, k), j, n), Clean(log, n), x)
  {
    if x in Clean(log, k) || !Refused(log, j, k, x) {
      KeyRecovers(log, j, k, n, x);
    } else {
      var m :| j <= m < k && FirstCreation(log, x, j, m) && RefusedAt(log, m);
      var u :| m < u < n && Overrides(log[u], x);
      OverriddenRecovers(log, Clean(log, k), j, u, n, x);
    }
  }

  lemma {:induction false} ReplayComposes(log: Values, s: Entries, lo: nat, mid: nat, hi: nat)
    requires lo <= mid <= hi <= |log| <= NO_CURSOR
    ensures Replay(log, Replay(log, s, lo, mid), mid, hi) == Replay(log, s, lo, hi)
    decreases hi
  {
    if mid < hi { ReplayComposes(log, s, lo, mid, hi - 1); }
  }

  /** With deletions and unconditional strings, recovery gives the records of a clean execution if and only
      if no deleted key is created again by a command that had been refused. What is asked of later
      instances is nothing: take for `n` the first instance that names a resurrected version. */
  lemma RecoveryIsExact(log: Values, j: nat, k: nat, n: nat)
    requires Honest(log) && j <= k <= n <= |log| && Truthful(log, n)
    ensures Replay(log, Clean(log, k), j, n) == Clean(log, n) <==> forall x: string :: !Resurrects(log, j, k, n, x)
  {
    var again := Replay(log, Clean(log, k), j, n);
    if x: string :| Resurrects(log, j, k, n, x) {
      var m :| j <= m < k && FirstCreation(log, x, j, m) && RefusedAt(log, m)
        && forall u :: m < u < n ==> !Overrides(log[u], x);
      ResurrectedStays(log, Clean(log, k), j, m, n, x);
      RefusedIsNoVersion(log, m, n, x);
      assert x in again;
    } else {
      forall x: string ensures SameAt(again, Clean(log, n), x) {
        assert !Resurrects(log, j, k, n, x);
        KeyRecoversUnlessResurrected(log, j, k, n, x);
      }
      SameEverywhere(again, Clean(log, n));
    }
  }

  /** The condition can fail: the lock is taken at 1, a second request is refused at 2, the lock is
      released at 3, and the mirror is left before 4 with a checkpoint that replays from 2. */
  lemma ReleasedLockComesBack()
    ensures var log := [None,
                        Some(Command(Kind.AcquireLock, "lock", 0, "first", 1000)),
                        Some(Command(Kind.AcquireLock, "lock", 0, "second", 1000)),
                        Some(Command(Kind.AcquireLock, "lock", 1, "first", 0))];
      Honest(log) && Truthful(log, 4) && "lock" !in Clean(log, 4) && "lock" in Replay(log, Clean(log, 4), 2, 4)
  {
  }
}
