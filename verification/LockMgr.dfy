/** One Paxos group of the lock service: commands applied to the memory map and later to the mirror, the
    checkpoints, and recovery (phxqueue/lock/locksm.cpp, phxqueue/lock/lockmgr.cpp). */
module LockMgrs {
  import opened CursorId
  import opened Options
  import opened LockDbs

  /** Keys of the mirror that hold no user record. */
  predicate Reserved(key: string) { "__ignore__" <= key }

  /** `disk` and `restart` are durable, like `mirror`. */
  datatype GroupState = GroupState(map_: Entries, mirror: Entries, last: u64, memory: u64, disk: u64, restart: u64)

  const EMPTY_GROUP := GroupState(map[], map[], NO_CURSOR, NO_CURSOR, NO_CURSOR, NO_CURSOR)

  /** An instance of the log; None is a value without a lock or string request. */
  type Value = Option<Command>

  function ExecuteOnMap(s: GroupState, i: u64, v: Value): GroupState {
    if v.None? then s else s.(map_ := Apply(s.map_, i, v.value), last := i)
  }

  /** Checkpoints move only with accepted commands; `sync` also makes the disk checkpoint follow. */
  function ExecuteOnMirror(s: GroupState, i: u64, v: Value, sync: bool): GroupState {
    if v.None? then s
    else if !Accepts(s.mirror, v.value) then s
    else
      var s1 := s.(mirror := Apply(s.mirror, i, v.value));
      if sync && i == NO_CURSOR then s1
      else if sync then s1.(disk := i, memory := i)
      else s1.(memory := i)
  }

  function UserEntries(s: Entries): Entries { map k | k in s && !Reserved(k) :: s[k] }

  function Recovered(s: GroupState): GroupState {
    var disk := if s.restart != NO_CURSOR && (s.disk == NO_CURSOR || s.restart > s.disk) then s.restart else s.disk;
    s.(map_ := UserEntries(s.mirror), disk := disk, memory := disk, last := disk)
  }

  /** What the cleaning thread writes after it has read the three values one by one. */
  predicate MayWriteRestart(now: u64, memory: u64, last: u64) {
    last == memory && now > Inc(memory) && now != NO_CURSOR
  }

  /** What the cleaner deletes. */
  predicate Overdue(r: Record, nowMs: u64) { r.lease != FOREVER && nowMs > r.expireMs }

  /** While the record of a command accepted at `nowMs` stands, the cleaner deletes it after the lease and not
      before, and never when the lease is unlimited, as long as the clock does not wrap. */
  lemma OverdueAfterLease(r: Record, nowMs: u64, later: u64)
    requires r.lease != FOREVER ==> nowMs + r.lease < TWO_64 && r.expireMs == (nowMs + r.lease) % TWO_64
    ensures Overdue(r, later) <==> r.lease != 0xFFFF_FFFF_FFFF_FFFF && later > nowMs + r.lease
  {
  }

  class LockMgr {
    const map_: LockDb
    const leveldb: LockDb
    var last: u64
    var memory: u64
    var disk: u64
    var restart: u64

    ghost predicate Valid() reads map_, leveldb {
      map_ as object != leveldb && map_.inMemory && !leveldb.inMemory && map_.Valid() && leveldb.Valid()
    }

    ghost function State(): GroupState reads this, map_, leveldb {
      GroupState(map_.State(), leveldb.State(), last, memory, disk, restart)
    }

    constructor ()
      ensures Valid() && State() == EMPTY_GROUP && fresh(map_) && fresh(leveldb)
    {
      map_ := new LockDb(true);
      leveldb := new LockDb(false);
      last, memory, disk, restart := NO_CURSOR, NO_CURSOR, NO_CURSOR, NO_CURSOR;
    }

    /** Execute: the memory map. */
    method ExecuteMap(i: u64, v: Value, nowMs: u64) returns (ok: bool)
      requires Valid()
      modifies this`last, map_
      ensures Valid() && State() == ExecuteOnMap(old(State()), i, v)
      ensures ok <==> v.Some? && Accepts(old(map_.State()), v.value)
      ensures last == if v.Some? then i else old(last)
      ensures ok && v.value.lease != 0 ==>
        && v.value.key in map_.records
        && map_.records[v.value.key] == Record(i, v.value.value, v.value.lease,
             if v.value.lease == FOREVER then 0 else (nowMs + v.value.lease) % TWO_64)
    {
      if v.None? { return false; }
      var cmd := v.value;
      var ret;
      match cmd.kind {
        case AcquireLock =>
          ret := map_.AcquireLock(cmd.key, cmd.version,
            Record(i, cmd.value, cmd.lease, ExpireAt(nowMs, cmd.lease)), nowMs);
        case SetString =>
          ret := map_.VersionSetString(cmd.key, cmd.version,
            Record(i, cmd.value, cmd.lease, ExpireAt(nowMs, cmd.lease)), nowMs);
      }
      last := i;
      return ret == Ok;
    }

    method WriteDiskCheckpoint(cp: u64)
      modifies this`disk, this`memory
      ensures if cp == NO_CURSOR then disk == old(disk) && memory == old(memory) else disk == cp && memory == cp
    {
      if cp != NO_CURSOR { disk, memory := cp, cp; }
    }

    /** ExecuteForCheckpoint: the mirror. */
    method ExecuteMirror(i: u64, v: Value, sync: bool, nowMs: u64)
      requires Valid()
      modifies this`disk, this`memory, leveldb
      ensures Valid() && State() == ExecuteOnMirror(old(State()), i, v, sync)
      ensures var moves := v.Some? && Accepts(old(leveldb.State()), v.value) && (sync ==> i != NO_CURSOR);
        memory == (if moves then i else old(memory)) && disk == (if moves && sync then i else old(disk))
    {
      if v.None? { return; }
      var cmd := v.value;
      var ret;
      match cmd.kind {
        case AcquireLock =>
          ret := leveldb.AcquireLock(cmd.key, cmd.version,
            Record(i, cmd.value, cmd.lease, ExpireAt(nowMs, cmd.lease)), nowMs);
        case SetString =>
          ret := leveldb.VersionSetString(cmd.key, cmd.version,
            Record(i, cmd.value, cmd.lease, ExpireAt(nowMs, cmd.lease)), nowMs);
      }
      if ret == Ok {
        if sync { WriteDiskCheckpoint(i); } else { memory := i; }
      }
    }

    /** Init after a restart: the map is filled from the mirror, and the restart checkpoint replaces a
        smaller disk checkpoint. `keys` is the order in which the mirror is read. */
    method Init(keys: seq<string>, nowMs: u64)
      requires Valid() && map_.records == map[]
      requires forall k :: k in leveldb.records <==> k in keys
      modifies this`last, this`memory, this`disk, map_
      ensures Valid() && State() == Recovered(old(State()))
      ensures forall k :: k in map_.records <==> k in leveldb.records && !("__ignore__" <= k)
      ensures forall k :: k in map_.records ==>
        map_.records[k] == leveldb.records[k].(expireMs := (nowMs + leveldb.records[k].lease) % TWO_64)
      ensures disk == memory == last && restart == old(restart) && leveldb.records == old(leveldb.records)
      ensures disk ==
        if restart != NO_CURSOR && (old(disk) == NO_CURSOR || restart > old(disk)) then restart else old(disk)
    {
      FillMap(keys, nowMs);
      hide Reserved, UserEntries;
      memory := disk;
      if restart != NO_CURSOR && (disk == NO_CURSOR || restart > disk) { WriteDiskCheckpoint(restart); }
      last := disk;
    }

    method FillMap(keys: seq<string>, nowMs: u64)
      requires Valid() && map_.records == map[]
      requires forall k :: k in leveldb.records <==> k in keys
      modifies map_
      ensures Valid() && leveldb.records == old(leveldb.records) && map_.State() == UserEntries(leveldb.State())
      ensures forall k :: k in map_.records <==> k in leveldb.records && !("__ignore__" <= k)
      ensures forall k :: k in map_.records ==>
        map_.records[k] == leveldb.records[k].(expireMs := (nowMs + leveldb.records[k].lease) % TWO_64)
    {
      ghost var mirror := leveldb.records;
      var i := 0;
      while i < |keys|
        modifies map_
        invariant 0 <= i <= |keys| && map_.Valid() && leveldb.records == mirror
        invariant forall k :: k in map_.records <==> k in keys[..i] && !Reserved(k)
        invariant forall k :: k in map_.records ==>
          k in mirror && map_.records[k] == mirror[k].(expireMs := (nowMs + mirror[k].lease) % TWO_64)
      {
        var k := keys[i];
        assert k in keys;
        if !Reserved(k) {
          var v := leveldb.records[k];
          var ret := map_.SetRecord(k, v.(expireMs := (nowMs + v.lease) % TWO_64));
        }
        i := i + 1;
      }
      assert keys[..i] == keys;
      assert map_.State() == UserEntries(leveldb.State()) by {
        assert forall k :: k in map_.State() <==> k in UserEntries(leveldb.State());
      }
    }

    /** The cleaner's command for a record whose lease has run out, under the record's own version. */
    method CleanCommand(key: string, nowMs: u64) returns (cmd: Option<Command>)
      requires Valid()
      ensures cmd.Some? <==> key in map_.records && Overdue(map_.records[key], nowMs)
      ensures cmd.Some? ==> cmd.value.kind == Kind.AcquireLock && cmd.value.lease == 0
      ensures cmd.Some? ==> forall s: Entries :: key in s ==>
        Apply(s, 0, cmd.value) == if s[key].version == map_.records[key].version then s - {key} else s
    {
      var ret, v := map_.GetRecord(key);
      if ret == Ok && v.lease != FOREVER && nowMs > v.expireMs {
        return Some(Command(Kind.AcquireLock, key, v.version, "__lock__:__clean_thread__", 0));
      }
      return None;
    }

    /** WriteRestartCheckpoint when nothing happens between its reads; LockRun lets anything happen. */
    method WriteRestartCheckpoint(now: u64)
      modifies this`restart
      ensures restart == if last == memory && After(memory) < now < NO_CURSOR then now - 1 else old(restart)
    {
      if last == memory && now > Inc(memory) && now != NO_CURSOR { restart := Dec(now); }
    }
  }
}
