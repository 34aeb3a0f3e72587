/** What the chained crc of store metas detects (phxqueue/store/storemeta.cpp:92-173): a reader that
    goes on from the last dequeued meta always passes, one that leaves a meta out never does. */
module CrcChain {
  import opened CursorId
  import opened StoreMetas

  /** An ideal hash. Only the detection half needs it; crc32 meets it up to collisions. */
  ghost predicate CollisionFree(link: Link) {
    forall a, b, c: u64, d: u64 {:trigger link(a, c), link(b, d)} :: link(a, c) == link(b, d) ==> a == b && c == d
  }

  ghost predicate Linked(m: StoreMeta, link: Link) {
    exists x {:trigger link(x, m.cursor)} :: m.crc == link(x, m.cursor)
  }

  /** Every meta is linked to its predecessor, and the first one above the last dequeued meta to that
      meta, even when it has been erased meanwhile. */
  ghost predicate Chained(q: MetaQueue, link: Link) {
    && Ordered(q)
    && (forall k :: 0 < k < |q.metas| ==> q.metas[k].crc == link(q.metas[k - 1].crc, q.metas[k].cursor))
    && (forall k :: 0 <= k < |q.metas| ==> Linked(q.metas[k], link))
    && (q.last.cursor != NO_CURSOR ==> Linked(q.last, link) && Resumes(q, link))
  }

  ghost predicate Resumes(q: MetaQueue, link: Link)
    requires Ordered(q)
  {
    var j := UpperBound(Cursors(q.metas), q.last.cursor);
    && (j < |q.metas| ==> q.metas[j].crc == link(q.last.crc, q.metas[j].cursor))
    && (j > 0 ==> q.metas[j - 1] == q.last)
  }

  ghost predicate Behind(m: StoreMeta, last: StoreMeta) {
    last.cursor != NO_CURSOR && m.cursor <= last.cursor
  }

  /** Instances are executed in order, and only what was handed out is erased. */
  ghost predicate Legal(q: MetaQueue, op: Op) {
    match op
    case PushOp(c) => q.last.cursor != NO_CURSOR ==> q.last.cursor < c
    case EraseOp(c) => c == NO_CURSOR || forall m :: m in q.metas && m.cursor <= c ==> Behind(m, q.last)
    case ClearOp => forall m :: m in q.metas ==> Behind(m, q.last)
    case _ => true
  }

  lemma PushKeepsChain(q: MetaQueue, c: u64, link: Link)
    requires Chained(q, link) && Legal(q, PushOp(c))
    ensures Chained(Push(q, c, link), link)
  {
    var r := Push(q, c, link);
    PushKeepsOrder(q, c, link);
    if r != q {
      var n := |q.metas|;
      assert r.metas == q.metas + [r.metas[n]];
      PushedIsLinked(q, c, link);
      forall k | 0 <= k < n ensures Linked(r.metas[k], link) { assert Linked(q.metas[k], link); }
      if q.last.cursor != NO_CURSOR { PushResumes(q, c, link); }
    }
  }

  lemma PushedIsLinked(q: MetaQueue, c: u64, link: Link)
    requires Chained(q, link)
    ensures var r := Push(q, c, link); r != q ==> Linked(r.metas[|q.metas|], link)
  {
  }

  lemma PushResumes(q: MetaQueue, c: u64, link: Link)
    requires Ordered(q) && Ordered(Push(q, c, link)) && q.last.cursor != NO_CURSOR && Resumes(q, link)
    requires q.last.cursor < c && Push(q, c, link) != q
    ensures Resumes(Push(q, c, link), link)
  {
    var r, last := Push(q, c, link), q.last.cursor;
    var s := Cursors(q.metas);
    var j := UpperBound(s, last);
    assert Cursors(r.metas) == s + [c];
    assert r.metas[..|q.metas|] == q.metas && r.metas[|q.metas|].cursor == c;
    UpperBoundIs(s + [c], last, j);
    hide UpperBound;
    if j < |q.metas| {
      assert r.metas[j] == q.metas[j];
    } else if q.metas != [] {
      assert q.metas[j - 1] == q.last;
    }
    if j > 0 { assert r.metas[j - 1] == q.metas[j - 1]; }
  }

  lemma SuffixKeepsChain(q: MetaQueue, n: nat, link: Link)
    requires Chained(q, link) && n <= |q.metas|
    requires n > 0 ==> Behind(q.metas[n - 1], q.last)
    ensures Chained(q.(metas := q.metas[n..]), link)
  {
    var r := q.(metas := q.metas[n..]);
    SuffixIsOrdered(q, n);
    hide Linked, Resumes, Ordered;
    if q.last.cursor != NO_CURSOR { SuffixResumes(q, n, link); }
    forall k | 0 <= k < |r.metas| ensures Linked(r.metas[k], link) { assert Linked(q.metas[n + k], link); }
    SuffixFollows(q.metas, n, link);
  }

  lemma SuffixFollows(s: seq<StoreMeta>, n: nat, link: Link)
    requires n <= |s| && forall k :: 0 < k < |s| ==> s[k].crc == link(s[k - 1].crc, s[k].cursor)
    ensures var r := s[n..]; forall k :: 0 < k < |r| ==> r[k].crc == link(r[k - 1].crc, r[k].cursor)
  {
    var r := s[n..];
    forall k | 0 < k < |r| ensures r[k].crc == link(r[k - 1].crc, r[k].cursor) {
      var i := n + k;
      assert r[k] == s[i] && r[k - 1] == s[i - 1];
      assert s[i].crc == link(s[i - 1].crc, s[i].cursor);
    }
  }

  lemma SuffixIsOrdered(q: MetaQueue, n: nat)
    requires Ordered(q) && n <= |q.metas|
    ensures Ordered(q.(metas := q.metas[n..]))
  {
  }

  lemma SuffixResumes(q: MetaQueue, n: nat, link: Link)
    requires Ordered(q) && n <= |q.metas| && q.last.cursor != NO_CURSOR && Resumes(q, link)
    requires n > 0 ==> Behind(q.metas[n - 1], q.last)
    requires Ordered(q.(metas := q.metas[n..]))
    ensures Resumes(q.(metas := q.metas[n..]), link)
  {
    var s, last := Cursors(q.metas), q.last.cursor;
    var j := UpperBound(s, last);
    assert Cursors(q.metas[n..]) == s[n..];
    SuffixBound(s, last, n);
    hide UpperBound, Cursors, Sorted;
    ResumesAt(q.(metas := q.metas[n..]), j - n, link);
  }

  lemma ResumesAt(q: MetaQueue, j: nat, link: Link)
    requires Ordered(q) && j == UpperBound(Cursors(q.metas), q.last.cursor)
    requires j < |q.metas| ==> q.metas[j].crc == link(q.last.crc, q.metas[j].cursor)
    requires j > 0 ==> q.metas[j - 1] == q.last
    ensures Resumes(q, link)
  {
  }

  lemma SuffixBound(s: seq<u64>, last: u64, n: nat)
    requires Sorted(s) && n <= |s| && (n > 0 ==> s[n - 1] <= last)
    ensures n <= UpperBound(s, last) && UpperBound(s[n..], last) == UpperBound(s, last) - n
  {
    UpperBoundIs(s[n..], last, UpperBound(s, last) - n);
  }

  lemma DequeueKeepsChain(q: MetaQueue, n: nat, link: Link)
    requires Chained(q, link) && n < |q.metas|
    ensures Chained(Dequeued(q, q.metas[n]), link)
  {
    var r, s := Dequeued(q, q.metas[n]), Cursors(q.metas);
    assert Cursors(r.metas) == s;
    if r != q {
      UpperBoundIs(s, q.metas[n].cursor, n + 1);
      hide UpperBound, Linked;
      if n + 1 < |q.metas| { assert q.metas[n + 1].crc == link(q.metas[n].crc, q.metas[n + 1].cursor); }
      assert Resumes(r, link);
    }
  }

  lemma ApplyKeepsChain(q: MetaQueue, op: Op, link: Link)
    requires Chained(q, link) && Legal(q, op)
    ensures Chained(Apply(q, op, link), link)
  {
    match op
    case PushOp(c) => PushKeepsChain(q, c, link);
    case EraseOp(c) =>
      if c != NO_CURSOR {
        var n := UpperBound(Cursors(q.metas), c);
        if n > 0 { assert Cursors(q.metas)[n - 1] <= c; assert q.metas[n - 1] in q.metas; }
        SuffixKeepsChain(q, n, link);
      }
    case ClearOp =>
      var n := |q.metas|;
      assert q.metas[n..] == [];
      SuffixKeepsChain(q, n, link);
    case ReadOp(c) =>
      var n := NextPos(Cursors(q.metas), c);
      if n < |q.metas| { DequeueKeepsChain(q, n, link); }
    case SyncOp(c) =>
      var n := LowerBound(Cursors(q.metas), c);
      if n < |q.metas| { DequeueKeepsChain(q, n, link); }
    case ClearStatOp =>
  }

  ghost predicate LegalRun(q: MetaQueue, ops: seq<Op>, link: Link)
    requires Ordered(q)
    decreases |ops|
  {
    ops != [] ==> Legal(q, ops[0]) && LegalRun(Apply(q, ops[0], link), ops[1..], link)
  }

  /** Every read goes on from the last dequeued meta. */
  ghost predicate ReadsInTurn(q: MetaQueue, ops: seq<Op>, link: Link)
    requires Ordered(q)
    decreases |ops|
  {
    ops != [] ==>
      && (ops[0].ReadOp? ==> ops[0].c == q.last.cursor)
      && ReadsInTurn(Apply(q, ops[0], link), ops[1..], link)
  }

  ghost predicate NeverFails(q: MetaQueue, ops: seq<Op>, link: Link)
    requires Ordered(q)
    decreases |ops|
  {
    ops != [] ==>
      && (ops[0].ReadOp? ==>
           var n := NextPos(Cursors(q.metas), ops[0].c);
           n < |q.metas| ==> CrcPass(q, q.metas[n], link))
      && NeverFails(Apply(q, ops[0], link), ops[1..], link)
  }

  /** A reader that always goes on from the last dequeued meta never sees a failed check, over any run
      of pushes, reads, erasures behind it, emptying and refilling. */
  lemma {:induction false} ReaderInTurnNeverFails(q: MetaQueue, ops: seq<Op>, link: Link)
    requires Chained(q, link) && LegalRun(q, ops, link) && ReadsInTurn(q, ops, link)
    ensures NeverFails(q, ops, link)
    decreases |ops|
  {
    if ops != [] {
      ApplyKeepsChain(q, ops[0], link);
      ReaderInTurnNeverFails(Apply(q, ops[0], link), ops[1..], link);
    }
  }

  lemma NewQueueIsChained(link: Link)
    ensures Chained(EMPTY_QUEUE, link)
  {
  }

  /** The check passes exactly when the meta handed out was already behind, or is the very next one
      after the last dequeued meta: leaving metas out is always noticed. */
  lemma CheckPassesIffNothingSkipped(q: MetaQueue, n: nat, link: Link)
    requires Chained(q, link) && CollisionFree(link) && n < |q.metas|
    ensures CrcPass(q, q.metas[n], link) <==>
      || q.last.cursor == NO_CURSOR
      || q.metas[n].cursor <= q.last.cursor
      || n == UpperBound(Cursors(q.metas), q.last.cursor)
  {
    var s := Cursors(q.metas);
    var j := UpperBound(s, q.last.cursor);
    if q.last.cursor != NO_CURSOR && q.last.cursor < s[n] && n != j {
      assert n > j;
      var pre := q.metas[n - 1];
      assert s[n - 1] > q.last.cursor;
      assert Linked(pre, link) && Linked(q.last, link);
      assert pre.crc != q.last.crc;
      assert link(pre.crc, s[n]) != link(q.last.crc, s[n]);
    }
  }
}
