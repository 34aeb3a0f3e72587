/** The agreed log of one Paxos group, what its values mean to the store, and the fixed
    configuration (phxqueue/store/proto/store.proto, phxqueue/store/basemgr.cpp:417-463). */
module StoreLog {
  import opened CursorId
  import opened Options

  /** `body` stands for everything the store passes through untouched; `cursor` is cursor_id. */
  datatype QItem = QItem(body: int, atime: nat, atimeMs: nat, byteSize: nat, cursor: u64)

  datatype AddRequest = AddRequest(queueId: int, items: seq<QItem>)

  datatype GroupDetail = GroupDetail(groupId: int, prev: u64)
  datatype QueueDetail = QueueDetail(queueId: int, groups: seq<GroupDetail>)
  type SyncCtrlInfo = seq<QueueDetail>

  datatype StorePaxosArgs = StorePaxosArgs(add: Option<AddRequest>, sync: Option<SyncCtrlInfo>)

  /** A value proposed by another state machine of the node shares the log. */
  datatype PaxosValue = StoreValue(args: StorePaxosArgs) | OtherValue

  /** Batch proposing puts several values into one instance. */
  type Instance = seq<PaxosValue>
  type Log = seq<Instance>

  /** `queues` holds the queues that have a queue info, `pubQueues` those some pub uses, `valid` the
      (queue, consumer group) pairs that IsValidQueue accepts for a pub of this store; `skip` is SkipGet
      together with ShouldSkip. */
  datatype Config = Config(
    nqueue: nat, ngroup: nat, nconsumerGroup: nat,
    queues: set<int>, pubQueues: set<int>, valid: set<(int, int)>,
    skip: (QItem, int, int) -> bool,
    itemsByteSizeLimit: nat)

  ghost predicate ValidConfig(cfg: Config) {
    && cfg.ngroup > 0
    && (forall q :: q in cfg.queues ==> 0 <= q < cfg.nqueue)
    && cfg.pubQueues <= cfg.queues
    && (forall q, c :: (q, c) in cfg.valid ==> q in cfg.pubQueues && 1 <= c <= cfg.nconsumerGroup)
  }

  function WithCursor(items: seq<QItem>, cursor: u64): (r: seq<QItem>)
    ensures |r| == |items|
    ensures forall k :: 0 <= k < |r| ==> r[k] == items[k].(cursor := cursor)
  {
    seq(|items|, k requires 0 <= k < |items| => items[k].(cursor := cursor))
  }

  function ItemsOfValue(v: PaxosValue, queueId: int, cursor: u64): seq<QItem> {
    if v.StoreValue? && v.args.add.Some? && v.args.add.value.queueId == queueId
    then WithCursor(v.args.add.value.items, cursor)
    else []
  }

  /** All items an instance holds for a queue, in order. */
  function ItemsAt(inst: Instance, queueId: int, cursor: u64): seq<QItem> {
    if inst == [] then [] else ItemsOfValue(inst[0], queueId, cursor) + ItemsAt(inst[1..], queueId, cursor)
  }

  /** The items of a sequence that are meant for consumer group `c` of queue `q`. */
  function Meant(cfg: Config, items: seq<QItem>, q: int, c: int): (r: seq<QItem>)
    ensures |r| <= |items|
    ensures forall x :: x in r <==> x in items && !cfg.skip(x, q, c)
  {
    if items == [] then []
    else (if cfg.skip(items[0], q, c) then [] else [items[0]]) + Meant(cfg, items[1..], q, c)
  }

  /** Items meant for (q, c) from the instances lo, lo+1, ..., hi-1 of the log, in log order. */
  function Slice(cfg: Config, log: Log, q: int, c: int, lo: nat, hi: nat): seq<QItem>
    requires hi <= |log| < TWO_64
  {
    if lo >= hi then [] else Slice(cfg, log, q, c, lo, hi - 1) + Meant(cfg, ItemsAt(log[hi - 1], q, hi - 1), q, c)
  }

  lemma {:induction false} SliceExtends(cfg: Config, log: Log, q: int, c: int, lo: nat, mid: nat, hi: nat)
    requires lo <= mid <= hi <= |log| < TWO_64
    requires forall i :: mid <= i < hi ==> ItemsAt(log[i], q, i) == []
    ensures Slice(cfg, log, q, c, lo, hi) == Slice(cfg, log, q, c, lo, mid)
    decreases hi
  {
    hide ItemsAt;
    if mid < hi {
      SliceExtends(cfg, log, q, c, lo, mid, hi - 1);
      assert Slice(cfg, log, q, c, lo, hi) == Slice(cfg, log, q, c, lo, hi - 1) + [];
    }
  }

  /** What a replica can read back from its Paxos log: instances below `trunc` were deleted, those at
      or above |log| are not chosen yet, and reading those in `broken` fails. */
  datatype NodeView = NodeView(log: Log, trunc: nat, broken: set<int>)

  datatype ItemsResult = NotChosen | ReadError | Items(items: seq<QItem>)

  /** GetItemsByCursorID. */
  function GetItemsByCursorID(node: NodeView, queueId: int, cursor: u64): ItemsResult {
    if cursor >= |node.log| then NotChosen
    else if cursor < node.trunc then Items([])
    else if cursor in node.broken then ReadError
    else Items(ItemsAt(node.log[cursor], queueId, cursor))
  }
}
