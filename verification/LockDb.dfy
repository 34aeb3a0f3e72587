/** The versioned records of the lock service (phxqueue/lock/lockdb.cpp). Locks and strings share one
    key space; the same class serves the memory map and the LevelDB mirror. */
module LockDbs {
  import opened CursorId

  /** A lease of -1 never expires; a string command of version -1 is unconditional. */
  const FOREVER: u64 := NO_CURSOR
  const ANY_VERSION: u64 := NO_CURSOR

  datatype Record = Record(version: u64, value: string, lease: u64, expireMs: u64)

  datatype Ret = Ok | KeyError | KeyNotExist | VersionNotEqual

  // ---------------------------------------------------------------- what a command does

  /** A record without the deadline, which each node computes from its own clock. */
  datatype Entry = Entry(version: u64, value: string, lease: u64)
  type Entries = map<string, Entry>

  datatype Kind = AcquireLock | SetString
  datatype Command = Command(kind: Kind, key: string, version: u64, value: string, lease: u64)

  predicate Unconditional(cmd: Command) { cmd.kind.SetString? && cmd.version == ANY_VERSION }

  predicate Clashes(s: Entries, cmd: Command) {
    cmd.key in s && s[cmd.key].version != cmd.version && !Unconditional(cmd)
  }

  predicate Accepts(s: Entries, cmd: Command) { cmd.key != "" && !Clashes(s, cmd) }

  /** The command of instance `i`: compare and set, or delete when the lease is 0. */
  function Apply(s: Entries, i: u64, cmd: Command): Entries {
    if !Accepts(s, cmd) then s
    else if cmd.lease == 0 then s - {cmd.key}
    else s[cmd.key := Entry(i, cmd.value, cmd.lease)]
  }

  function ExpireAt(nowMs: u64, lease: u64): u64 {
    if lease == FOREVER then 0 else (nowMs + lease) % TWO_64
  }

  // ---------------------------------------------------------------- the class

  class LockDb {
    const inMemory: bool
    var records: map<string, Record>

    ghost predicate Valid() reads this {
      "" !in records && (!inMemory ==> forall k :: k in records ==> records[k].expireMs == 0)
    }

    ghost function State(): Entries reads this {
      map k | k in records :: Entry(records[k].version, records[k].value, records[k].lease)
    }

    constructor (inMemory: bool)
      ensures Valid() && State() == map[] && this.inMemory == inMemory
    {
      this.inMemory := inMemory;
      records := map[];
    }

    method GetRecord(k: string) returns (ret: Ret, v: Record)
      requires Valid()
      ensures ret == if k == "" then KeyError else if k in records then Ok else KeyNotExist
      ensures ret == Ok ==> v == records[k]
    {
      v := Record(0, "", 0, 0);
      if |k| == 0 { return KeyError, v; }
      if k !in records { return KeyNotExist, v; }
      return Ok, records[k];
    }

    /** The mirror stores no deadline. */
    method SetRecord(k: string, v: Record) returns (ret: Ret)
      requires Valid()
      modifies this`records
      ensures Valid()
      ensures ret == if k == "" then KeyError else Ok
      ensures records == if k == "" then old(records) else old(records)[k := if inMemory then v else v.(expireMs := 0)]
    {
      if |k| == 0 { return KeyError; }
      records := records[k := if inMemory then v else v.(expireMs := 0)];
      return Ok;
    }

    method DeleteRecord(k: string) returns (ret: Ret)
      requires Valid()
      modifies this`records
      ensures Valid()
      ensures ret == if k == "" then KeyError else Ok
      ensures records == old(records) - {k}
    {
      if |k| == 0 { return KeyError; }
      records := records - {k};
      return Ok;
    }

    method AcquireLock(key: string, version: u64, v: Record, nowMs: u64) returns (ret: Ret)
      requires Valid()
      modifies this`records
      ensures Valid()
      ensures ret == if key == "" then KeyError
        else if key !in old(records) || old(records)[key].version == version then Ok
        else VersionNotEqual
      ensures records == if ret != Ok then old(records) else if v.lease == 0 then old(records) - {key}
        else old(records)[key :=
          v.(expireMs := if !inMemory || v.lease == FOREVER then 0 else (nowMs + v.lease) % TWO_64)]
      ensures var cmd := Command(Kind.AcquireLock, key, version, v.value, v.lease);
        && State() == Apply(old(State()), v.version, cmd)
        && (ret == Ok <==> Accepts(old(State()), cmd))
    {
      var local;
      ret, local := GetRecord(key);
      if ret == KeyError { return; }
      if ret != KeyNotExist && local.version != version { return VersionNotEqual; }
      if v.lease == 0 {
        ret := DeleteRecord(key);
        return;
      }
      ret := SetRecord(key, Record(v.version, v.value, v.lease, ExpireAt(nowMs, v.lease)));
    }

    method VersionSetString(key: string, version: u64, v: Record, nowMs: u64) returns (ret: Ret)
      requires Valid()
      modifies this`records
      ensures Valid()
      ensures ret == if key == "" then KeyError
        else if key !in old(records) || old(records)[key].version == version || version == ANY_VERSION then Ok
        else VersionNotEqual
      ensures records == if ret != Ok then old(records) else if v.lease == 0 then old(records) - {key}
        else old(records)[key :=
          v.(expireMs := if !inMemory || v.lease == FOREVER then 0 else (nowMs + v.lease) % TWO_64)]
      ensures var cmd := Command(Kind.SetString, key, version, v.value, v.lease);
        && State() == Apply(old(State()), v.version, cmd)
        && (ret == Ok <==> Accepts(old(State()), cmd))
    {
      var local;
      ret, local := GetRecord(key);
      if ret == KeyError { return; }
      if ret != KeyNotExist && version != ANY_VERSION && local.version != version { return VersionNotEqual; }
      if v.lease == 0 {
        ret := DeleteRecord(key);
        return;
      }
      ret := SetRecord(key, Record(v.version, v.value, v.lease, ExpireAt(nowMs, v.lease)));
    }
  }
}
