/** The client side of the scheduler's lease (phxqueue/scheduler/keepmasterthread.cpp:116-210,
    phxqueue/scheduler/schedulermgr.cpp:201-223). */
module KeepMasters {
  import opened CursorId
  import opened Options
  import opened LockDbs

  /** What GetLockInfo answers. */
  datatype LockInfo = NotExist | Info(entry: Entry) | RpcError

  /** The thread's version and overdue time; times are read from its own clock. */
  datatype Watch = Watch(version: u64, overdue: nat)

  /** What the thread remembers after it has read the lock. */
  function Observe(w: Watch, now: nat, info: LockInfo): Watch {
    match info
    case NotExist => Watch(0, now)
    case Info(e) => if w.version != e.version then Watch(e.version, now + e.lease) else w
    case RpcError => w
  }

  /** Whether it then asks for the lock. */
  predicate Wants(w: Watch, client: string, now: nat, info: LockInfo) {
    match info
    case NotExist => true
    case Info(e) => client == e.value || now > Observe(w, now, info).overdue
    case RpcError => false
  }

  datatype KeepRet = Failed | NoNeedLock | Refused | Renewed

  class SchedulerMgr {
    var masterExpireTimeMs: nat

    constructor ()
      ensures masterExpireTimeMs == 0
    {
      masterExpireTimeMs := 0;
    }

    method RenewMaster(expireTimeMs: nat)
      modifies this
      ensures masterExpireTimeMs == expireTimeMs
    {
      masterExpireTimeMs := expireTimeMs;
    }

    predicate IsMaster(now: nat) reads this { now < masterExpireTimeMs }
  }

  class KeepMasterThread {
    var version: u64
    var overdueTimeMs: nat
    const clientId: string
    const mgr: SchedulerMgr

    ghost function State(): Watch reads this { Watch(version, overdueTimeMs) }

    constructor (clientId: string, mgr: SchedulerMgr)
      ensures State() == Watch(0, 0) && this.clientId == clientId && this.mgr == mgr
    {
      version, overdueTimeMs := 0, 0;
      this.clientId, this.mgr := clientId, mgr;
    }

    /** One round. `now` is sampled before the lock is read, `info` and `acquired` are what the two calls
        bring back; `request` is the version sent when the lock is asked for. */
    method KeepMaster(now: nat, info: LockInfo, leaseMs: u64, acquired: bool)
        returns (ret: KeepRet, request: Option<u64>)
      modifies this, mgr
      ensures State() == Observe(old(State()), now, info)
      ensures request == if Wants(old(State()), clientId, now, info) then Some(version) else None
      ensures version == if info.NotExist? then 0 else if info.Info? then info.entry.version else old(version)
      ensures overdueTimeMs == if info.NotExist? then now
        else if info.Info? && info.entry.version != old(version) then now + info.entry.lease else old(overdueTimeMs)
      ensures request.Some? <==>
        info.NotExist? || (info.Info? && (info.entry.value == clientId || now > overdueTimeMs))
      ensures ret == if info.RpcError? then Failed else if request.None?
        then NoNeedLock else if acquired then Renewed else Refused
      ensures mgr.masterExpireTimeMs == if ret == Renewed then now + leaseMs else old(mgr.masterExpireTimeMs)
    {
      request := None;
      var need := false;
      match info {
        case RpcError => return Failed, None;
        case NotExist =>
          version := 0;
          overdueTimeMs := now;
          need := true;
        case Info(e) =>
          if version != e.version {
            version := e.version;
            overdueTimeMs := now + e.lease;
          }
          if clientId == e.value || now > overdueTimeMs { need := true; }
      }
      if need {
        request := Some(version);
        var expireTimeMs := now + leaseMs;
        if !acquired { return Refused, request; }
        mgr.RenewMaster(expireTimeMs);
        return Renewed, request;
      }
      return NoNeedLock, None;
    }
  }
}
