/** Assigning pending queues to the process slots of a consumer host
    (phxqueue/consumer/hblock.cpp:181-273). */
module SlotBuffer {

  datatype Queue = Queue(group: int, store: int, queue: int)

  /** A slot counts as taken when its magic is in place; a freed slot may keep stale ids. */
  datatype Slot = Slot(magic: bool, q: Queue)

  const ZERO := Slot(false, Queue(0, 0, 0))

  datatype Pending = Pending(group: int, queues: seq<Queue>)

  predicate Holds(s: Slot, q: Queue) { s.magic && s.q == q }

  predicate Of(s: Slot, group: int) { s.magic && s.q.group == group }

  /** A list of pending queues names each queue of its group once. */
  ghost predicate Proper(p: Pending) {
    && (forall i :: 0 <= i < |p.queues| ==> p.queues[i].group == p.group)
    && (forall i, j :: 0 <= i < j < |p.queues| ==> p.queues[i] != p.queues[j])
  }

  ghost predicate FirstHolder(slots: seq<Slot>, i: int, q: Queue) {
    0 <= i < |slots| && Holds(slots[i], q) && forall j :: 0 <= j < i ==> !Holds(slots[j], q)
  }

  // ---------------------------------------------------------------- one group

  /** The slots of the group hold pending queues, and no two the same. */
  ghost predicate Assigned(slots: seq<Slot>, p: Pending) {
    && (forall i :: 0 <= i < |slots| && Of(slots[i], p.group) ==> slots[i].q in p.queues)
    && (forall i, j :: 0 <= i < j < |slots| && Of(slots[i], p.group) && Of(slots[j], p.group) ==>
      slots[i].q != slots[j].q)
  }

  /** A process that works on a queue that is still pending goes on with it. */
  ghost predicate Kept(before: seq<Slot>, after: seq<Slot>, p: Pending) {
    |before| == |after| && forall i, q :: q in p.queues && FirstHolder(before, i, q) ==> after[i] == before[i]
  }

  ghost predicate OthersUntouched(before: seq<Slot>, after: seq<Slot>, group: int) {
    && |before| == |after|
    && (forall i :: 0 <= i < |before| && before[i].magic && before[i].q.group != group ==> after[i] == before[i])
    && (forall i :: 0 <= i < |before| && after[i].magic && after[i].q.group != group ==> after[i] == before[i])
  }

  ghost predicate Held(slots: seq<Slot>, n: int, q: Queue) {
    exists i :: 0 <= i < n && i < |slots| && Holds(slots[i], q)
  }

  ghost predicate Full(slots: seq<Slot>) { forall i :: 0 <= i < |slots| ==> slots[i].magic }

  /** What one group's turn leaves. */
  ghost predicate Turn(before: seq<Slot>, after: seq<Slot>, p: Pending) {
    && OthersUntouched(before, after, p.group)
    && Assigned(after, p)
    && Kept(before, after, p)
    && (forall q :: q in p.queues && !Held(after, |after|, q) ==> Full(after))
  }

  // ---------------------------------------------------------------- the first loop, one slot at a time

  /** Slots from `n` on were not looked at yet; those before were kept or freed. */
  ghost predicate Looked(was: seq<Slot>, now: seq<Slot>, n: nat, group: int) {
    && |was| == |now| && n <= |now|
    && (forall i :: n <= i < |now| ==> now[i] == was[i])
    && (forall i :: 0 <= i < n && !Of(was[i], group) ==> now[i] == was[i])
    && (forall i :: 0 <= i < n && Of(was[i], group) ==> now[i] == was[i] || now[i] == ZERO)
  }

  ghost predicate AssignedTo(now: seq<Slot>, n: nat, p: Pending)
    requires n <= |now|
  {
    && (forall i :: 0 <= i < n && Of(now[i], p.group) ==> now[i].q in p.queues)
    && (forall i, j :: 0 <= i < j < n && Of(now[i], p.group) && Of(now[j], p.group) ==> now[i].q != now[j].q)
  }

  ghost predicate DoneTo(now: seq<Slot>, n: nat, p: Pending, done: seq<bool>) {
    |done| == |p.queues| && forall k :: 0 <= k < |done| ==> (done[k] <==> Held(now, n, p.queues[k]))
  }

  ghost predicate KeptTo(was: seq<Slot>, now: seq<Slot>, n: nat, p: Pending)
    requires |was| == |now|
  {
    forall i, q :: i < n && q in p.queues && FirstHolder(was, i, q) ==> now[i] == was[i]
  }

  /** A slot of another group is passed by. */
  lemma PassBy(was: seq<Slot>, now: seq<Slot>, n: nat, p: Pending, done: seq<bool>)
    requires Proper(p) && Looked(was, now, n, p.group) && n < |now|
    requires AssignedTo(now, n, p) && DoneTo(now, n, p, done) && KeptTo(was, now, n, p)
    requires !Of(now[n], p.group)
    ensures Looked(was, now, n + 1, p.group) && AssignedTo(now, n + 1, p)
    ensures DoneTo(now, n + 1, p, done) && KeptTo(was, now, n + 1, p)
  {
  }

  lemma Keep(was: seq<Slot>, now: seq<Slot>, n: nat, p: Pending, done: seq<bool>, idx: nat)
    requires Proper(p) && Looked(was, now, n, p.group) && n < |now|
    requires AssignedTo(now, n, p) && DoneTo(now, n, p, done) && KeptTo(was, now, n, p)
    requires now[n].magic && idx < |p.queues| && p.queues[idx] == now[n].q && !done[idx]
    ensures Looked(was, now, n + 1, p.group) && AssignedTo(now, n + 1, p)
    ensures DoneTo(now, n + 1, p, done[idx := true]) && KeptTo(was, now, n + 1, p)
  {
  }

  /** A second slot for the same queue, or one for a queue that is not pending, is freed. */
  lemma Free(was: seq<Slot>, now: seq<Slot>, n: nat, p: Pending, done: seq<bool>)
    requires Proper(p) && Looked(was, now, n, p.group) && n < |now|
    requires AssignedTo(now, n, p) && DoneTo(now, n, p, done) && KeptTo(was, now, n, p)
    requires Of(now[n], p.group) && (now[n].q !in p.queues || Held(now, n, now[n].q))
    ensures var next := now[n := ZERO];
      Looked(was, next, n + 1, p.group) && AssignedTo(next, n + 1, p)
        && DoneTo(next, n + 1, p, done) && KeptTo(was, next, n + 1, p)
  {
  }

  // ---------------------------------------------------------------- the second loop, one slot at a time

  /** Slots before `n` are taken or nothing is left to do; only free slots were written. */
  ghost predicate Filled(was: seq<Slot>, now: seq<Slot>, n: nat, p: Pending, done: seq<bool>) {
    && |was| == |now| && n <= |now| && |done| == |p.queues|
    && (forall i :: n <= i < |now| ==> now[i] == was[i])
    && (forall i :: 0 <= i < |now| && was[i].magic ==> now[i] == was[i])
    && (forall i :: 0 <= i < |now| && now[i].magic && !was[i].magic ==> now[i].q.group == p.group)
    && (forall i :: 0 <= i < n && !now[i].magic ==> forall k :: 0 <= k < |done| ==> done[k])
  }

  lemma Fill(was: seq<Slot>, now: seq<Slot>, n: nat, p: Pending, done: seq<bool>, idx: nat)
    requires Proper(p) && Filled(was, now, n, p, done) && n < |now| && Assigned(now, p) && DoneTo(now, |now|, p, done)
    requires !now[n].magic && idx < |done| && !done[idx]
    ensures var next, done' := now[n := Slot(true, p.queues[idx])], done[idx := true];
      Filled(was, next, n + 1, p, done') && Assigned(next, p) && DoneTo(next, |next|, p, done')
  {
  }

  lemma Leave(was: seq<Slot>, now: seq<Slot>, n: nat, p: Pending, done: seq<bool>, s: Slot)
    requires Proper(p) && Filled(was, now, n, p, done) && n < |now| && Assigned(now, p) && DoneTo(now, |now|, p, done)
    requires !now[n].magic && s == now[n] && forall k :: 0 <= k < |done| ==> done[k]
    ensures Filled(was, now, n + 1, p, done)
  {
  }

  class HeartBeatLock {
    const slots: array<Slot>
    var magic: bool

    constructor (nproc: nat)
      ensures fresh(slots) && slots.Length == nproc && !magic
      ensures forall i :: 0 <= i < nproc ==> slots[i] == ZERO
    {
      slots := new Slot[nproc](i => ZERO);
      magic := false;
    }

    method ClearInvalidConsumerGroupIDs(valid: set<int>)
      modifies slots
      ensures forall i :: 0 <= i < slots.Length ==>
        slots[i] == if old(slots[i]).magic && old(slots[i]).q.group !in valid then ZERO else old(slots[i])
    {
      for vpid := 0 to slots.Length
        invariant forall i :: vpid <= i < slots.Length ==> slots[i] == old(slots[i])
        invariant forall i :: 0 <= i < vpid ==>
          slots[i] == if old(slots[i]).magic && old(slots[i]).q.group !in valid then ZERO else old(slots[i])
      {
        if slots[vpid].magic && slots[vpid].q.group !in valid { slots[vpid] := ZERO; }
      }
    }

    method Find(queues: seq<Queue>, q: Queue) returns (idx: nat)
      ensures idx <= |queues|
      ensures idx < |queues| ==> queues[idx] == q
      ensures idx == |queues| ==> q !in queues
    {
      idx := 0;
      while idx < |queues|
        invariant idx <= |queues| && q !in queues[..idx]
      {
        if queues[idx] == q { return; }
        idx := idx + 1;
      }
      assert queues[..idx] == queues;
    }

    /** The first loop: keep what is still pending, free the rest. */
    method KeepAssigned(p: Pending, done: array<bool>)
      requires Proper(p) && done.Length == |p.queues| && done as object != slots
      requires forall k :: 0 <= k < done.Length ==> !done[k]
      modifies slots, done
      ensures Looked(old(slots[..]), slots[..], slots.Length, p.group) && AssignedTo(slots[..], slots.Length, p)
      ensures DoneTo(slots[..], slots.Length, p, done[..]) && KeptTo(old(slots[..]), slots[..], slots.Length, p)
    {
      ghost var was := slots[..];
      var vpid := 0;
      assert DoneTo(slots[..], 0, p, done[..]);
      hide Looked, AssignedTo, DoneTo, KeptTo, Proper;
      assert Looked(was, slots[..], 0, p.group) && AssignedTo(slots[..], 0, p) && KeptTo(was, slots[..], 0, p) by {
        NothingLooked(was, p);
      }
      while vpid < slots.Length
        invariant 0 <= vpid <= slots.Length
        invariant Looked(was, slots[..], vpid, p.group) && AssignedTo(slots[..], vpid, p)
        invariant DoneTo(slots[..], vpid, p, done[..]) && KeptTo(was, slots[..], vpid, p)
      {
        ghost var s0, d0 := slots[..], done[..];
        var q := slots[vpid].q;
        if slots[vpid].magic && p.group == q.group {
          var idx := Find(p.queues, q);
          assert idx < |p.queues| ==> (d0[idx] <==> Held(s0, vpid, q)) by { DoneIs(s0, vpid, p, d0); }
          if idx < |p.queues| && !done[idx] {
            Keep(was, s0, vpid, p, d0, idx);
            done[idx] := true;
            assert done[..] == d0[idx := true] && slots[..] == s0;
          } else {
            Free(was, s0, vpid, p, d0);
            slots[vpid] := ZERO;
            assert done[..] == d0 && slots[..] == s0[vpid := ZERO];
          }
        } else {
          PassBy(was, s0, vpid, p, d0);
        }
        vpid := vpid + 1;
      }
    }

    /** The second loop: the slots that are left take the queues that are left. */
    method FillFree(p: Pending, done: array<bool>)
      requires Proper(p) && done.Length == |p.queues| && done as object != slots
      requires Assigned(slots[..], p) && DoneTo(slots[..], slots.Length, p, done[..])
      modifies slots, done
      ensures Filled(old(slots[..]), slots[..], slots.Length, p, done[..]) && Assigned(slots[..], p)
      ensures DoneTo(slots[..], slots.Length, p, done[..])
    {
      ghost var was := slots[..];
      var vpid := 0;
      while vpid < slots.Length
        invariant 0 <= vpid <= slots.Length
        invariant Filled(was, slots[..], vpid, p, done[..])
          && Assigned(slots[..], p) && DoneTo(slots[..], slots.Length, p, done[..])
      {
        hide Filled, Assigned, DoneTo, Proper;
        ghost var s0, d0 := slots[..], done[..];
        if !slots[vpid].magic {
          var idx := 0;
          while idx < |p.queues| && done[idx]
            invariant 0 <= idx <= |p.queues| && slots[..] == s0 && done[..] == d0
            invariant forall k :: 0 <= k < idx ==> done[k]
          {
            idx := idx + 1;
          }
          if idx == |p.queues| {
            assert forall k :: 0 <= k < |d0| ==> d0[k];
            Leave(was, s0, vpid, p, d0, slots[vpid]);
            slots[vpid] := slots[vpid].(magic := false);
            assert slots[..] == s0;
          } else {
            Fill(was, s0, vpid, p, d0, idx);
            slots[vpid] := Slot(true, p.queues[idx]);
            done[idx] := true;
            assert slots[..] == s0[vpid := Slot(true, p.queues[idx])] && done[..] == d0[idx := true];
          }
        } else {
          Taken(was, s0, vpid, p, d0);
        }
        vpid := vpid + 1;
      }
    }

    method DistubeGroup(p: Pending)
      requires Proper(p)
      modifies slots
      ensures Turn(old(slots[..]), slots[..], p)
    {
      var done := new bool[|p.queues|](i => false);
      ghost var was := slots[..];
      KeepAssigned(p, done);
      ghost var kept := slots[..];
      assert Assigned(kept, p);
      FillFree(p, done);
      TurnOf(was, kept, slots[..], p, done[..]);
    }

    /** Afterwards the slots of each listed group hold distinct pending queues of the group; the first slot
        that held a queue that is still pending holds it on; slots of other groups are untouched; and a
        queue is left out only if no slot was free when its group had finished. */
    method DistubePendingQueues(pending: seq<Pending>)
      requires ProperMap(pending)
      modifies slots, this`magic
      ensures Distributed(old(slots[..]), slots[..], pending, |pending|) && magic
    {
      ghost var was := slots[..];
      var n := 0;
      while n < |pending|
        invariant 0 <= n <= |pending|
        invariant Distributed(was, slots[..], pending, n)
      {
        ghost var before := slots[..];
        DistubeGroup(pending[n]);
        NextGroup(was, before, slots[..], pending, n);
        n := n + 1;
      }
      magic := true;
    }
  }

  // ---------------------------------------------------------------- several groups

  predicate Lists(pending: seq<Pending>, lo: nat, group: int) {
    exists k :: lo <= k < |pending| && pending[k].group == group
  }

  ghost predicate ProperMap(pending: seq<Pending>) {
    && (forall k :: 0 <= k < |pending| ==> Proper(pending[k]))
    && (forall k, l :: 0 <= k < l < |pending| ==> pending[k].group != pending[l].group)
  }

  /** When group `k` had finished, no slot was free: every slot is now held by a group that is not listed
      after it, or was held from the start by one that is. */
  ghost predicate WasFull(before: seq<Slot>, after: seq<Slot>, pending: seq<Pending>, k: nat)
    requires |before| == |after| && k < |pending|
  {
    forall i :: 0 <= i < |after| ==>
      || (after[i].magic && !Lists(pending, k + 1, after[i].q.group))
      || (before[i].magic && Lists(pending, k + 1, before[i].q.group))
  }

  /** What the turns of the groups before `n` leave. */
  ghost predicate Distributed(before: seq<Slot>, after: seq<Slot>, pending: seq<Pending>, n: nat)
    requires n <= |pending|
  {
    && |before| == |after|
    && (forall k :: 0 <= k < n ==> Assigned(after, pending[k]) && Kept(before, after, pending[k]))
    && (forall i :: 0 <= i < |after| && before[i].magic && !Lists(pending[..n], 0, before[i].q.group) ==>
      after[i] == before[i])
    && (forall i :: 0 <= i < |after| && after[i].magic && !Lists(pending[..n], 0, after[i].q.group) ==>
      after[i] == before[i])
    && (forall k, q :: 0 <= k < n && q in pending[k].queues && !Held(after, |after|, q) ==>
      WasFull(before, after, pending[..n], k))
  }

  lemma NothingLooked(was: seq<Slot>, p: Pending)
    ensures Looked(was, was, 0, p.group) && AssignedTo(was, 0, p) && KeptTo(was, was, 0, p)
  {
  }

  lemma DoneIs(now: seq<Slot>, n: nat, p: Pending, done: seq<bool>)
    requires DoneTo(now, n, p, done)
    ensures |done| == |p.queues| && forall k :: 0 <= k < |done| ==> (done[k] <==> Held(now, n, p.queues[k]))
  {
  }

  lemma Taken(was: seq<Slot>, now: seq<Slot>, n: nat, p: Pending, done: seq<bool>)
    requires Filled(was, now, n, p, done) && n < |now| && now[n].magic
    ensures Filled(was, now, n + 1, p, done)
  {
  }

  lemma TurnOf(was: seq<Slot>, kept: seq<Slot>, now: seq<Slot>, p: Pending, done: seq<bool>)
    requires Looked(was, kept, |kept|, p.group) && KeptTo(was, kept, |kept|, p)
    requires Filled(kept, now, |now|, p, done) && Assigned(now, p) && DoneTo(now, |now|, p, done)
    ensures Turn(was, now, p)
  {
  }

  lemma HeldStays(before: seq<Slot>, after: seq<Slot>, p: Pending, q: Queue)
    requires Turn(before, after, p) && q.group != p.group
    ensures Held(after, |after|, q) == Held(before, |before|, q)
  {
  }

  lemma ListsOneMore(pending: seq<Pending>, n: nat, lo: nat, group: int)
    requires n < |pending| && lo <= n
    ensures Lists(pending[..n + 1], lo, group) <==> Lists(pending[..n], lo, group) || pending[n].group == group
  {
  }

  lemma NextGroup(was: seq<Slot>, before: seq<Slot>, after: seq<Slot>, pending: seq<Pending>, n: nat)
    requires n < |pending| && ProperMap(pending)
    requires Distributed(was, before, pending, n) && Turn(before, after, pending[n])
    ensures Distributed(was, after, pending, n + 1)
  {
    var p := pending[n];
    forall i | 0 <= i < |after| && was[i].magic && !Lists(pending[..n + 1], 0, was[i].q.group)
      ensures after[i] == was[i]
    {
      ListsOneMore(pending, n, 0, was[i].q.group);
    }
    forall i | 0 <= i < |after| && after[i].magic && !Lists(pending[..n + 1], 0, after[i].q.group)
      ensures after[i] == was[i]
    {
      ListsOneMore(pending, n, 0, after[i].q.group);
    }
    forall k | 0 <= k < n + 1 ensures Assigned(after, pending[k]) && Kept(was, after, pending[k]) {
      if k < n {
        EarlierGroupStays(was, before, after, pending, n, k);
      } else {
        LastGroupKeeps(was, before, after, pending, n);
      }
    }
    forall k, q | 0 <= k < n + 1 && q in pending[k].queues && !Held(after, |after|, q)
      ensures WasFull(was, after, pending[..n + 1], k)
    {
      if k < n {
        HeldStays(before, after, p, q);
        StaysFull(was, before, after, pending, n, k);
      } else {
        FullNow(was, before, after, pending, n);
      }
    }
  }

  lemma EarlierGroupStays(was: seq<Slot>, before: seq<Slot>, after: seq<Slot>, pending: seq<Pending>, n: nat, k: nat)
    requires k < n < |pending| && ProperMap(pending)
    requires Distributed(was, before, pending, n) && Turn(before, after, pending[n])
    ensures Assigned(after, pending[k]) && Kept(was, after, pending[k])
  {
  }

  /** A slot of the group was not written before the group's turn. */
  lemma LastGroupKeeps(was: seq<Slot>, before: seq<Slot>, after: seq<Slot>, pending: seq<Pending>, n: nat)
    requires n < |pending| && ProperMap(pending)
    requires Distributed(was, before, pending, n) && Turn(before, after, pending[n])
    ensures Assigned(after, pending[n]) && Kept(was, after, pending[n])
  {
  }

  lemma StaysFull(was: seq<Slot>, before: seq<Slot>, after: seq<Slot>, pending: seq<Pending>, n: nat, k: nat)
    requires k < n < |pending| && ProperMap(pending)
    requires Distributed(was, before, pending, n) && Turn(before, after, pending[n])
    requires WasFull(was, before, pending[..n], k)
    ensures WasFull(was, after, pending[..n + 1], k)
  {
  }

  lemma FullNow(was: seq<Slot>, before: seq<Slot>, after: seq<Slot>, pending: seq<Pending>, n: nat)
    requires n < |pending| && |was| == |after| && Full(after)
    ensures WasFull(was, after, pending[..n + 1], n)
  {
  }
}
