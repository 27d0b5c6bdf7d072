// The storage service over one dataset: a Redis cache in front of a Maria table. Puts and deletes go to
// the table first and then to the cache; gets read the cache and fill it from the table.
module Storage {
  import opened Common

  // ----- one entry -----

  // One entry key as the two servers hold it.
  datatype Cell<V> = Cell(table: Option<V>, cached: Option<V>)

  // The cache never says anything the table does not.
  predicate Coherent<V(==)>(c: Cell<V>) {
    c.cached.Some? ==> c.table == c.cached
  }

  // What a command reports. RedisFailed on a successful put or delete is the text "maria=OK redis=...".
  datatype Status =
    | Ok | FromRedis | FromMaria
    | OkRedisFailed
    | RedisUnavailable | RedisError | Nil
    | MariaUnavailable | MariaError | BadTablePrefix | EmptyKey | NotFound
  {
    predicate IsOk() { Ok? || FromRedis? || FromMaria? || OkRedisFailed? }
  }

  // The state of the connections and the answers of the servers during one call. A Maria statement
  // that fails has no effect; a Redis command that fails may have been executed.
  datatype Weather = Weather(
    redisUp: bool, mariaUp: bool, tableValid: bool,
    ensureOk: bool, statementOk: bool, redisGet: Reply, redisWrite: Reply)

  // The part of the weather that is the service's own state.
  datatype Connections = Connections(redisUp: bool, mariaUp: bool, tableValid: bool)

  function Under(c: Connections, answers: Weather): Weather {
    answers.(redisUp := c.redisUp, mariaUp := c.mariaUp, tableValid := c.tableValid)
  }

  function RedisWriteStatus(w: Weather): Status {
    if !w.redisUp then RedisUnavailable else if w.redisWrite.Lost? then RedisError else Ok
  }

  predicate RedisWritten(w: Weather) {
    w.redisUp && w.redisWrite.Executed()
  }

  // Everything that can stop a statement before it changes or reads the table.
  function MariaStatus(w: Weather): Status {
    if !w.mariaUp then MariaUnavailable
    else if !w.tableValid then BadTablePrefix
    else if !w.ensureOk || !w.statementOk then MariaError
    else Ok
  }

  function PutCell<V>(c: Cell<V>, value: V, w: Weather): (Cell<V>, Status) {
    if !MariaStatus(w).Ok? then (c, MariaStatus(w))
    else (Cell(Some(value), if RedisWritten(w) then Some(value) else c.cached),
          if RedisWriteStatus(w).Ok? then Ok else OkRedisFailed)
  }

  function DeleteCell<V>(c: Cell<V>, w: Weather): (Cell<V>, Status) {
    if !MariaStatus(w).Ok? then (c, MariaStatus(w))
    else (Cell(None, if RedisWritten(w) then None else c.cached),
          if RedisWriteStatus(w).Ok? then Ok else OkRedisFailed)
  }

  function GetCell<V>(c: Cell<V>, w: Weather): (Cell<V>, Status, Option<V>) {
    if !w.redisUp then (c, RedisUnavailable, None)
    else if w.redisGet.Lost? then (c, RedisError, None)
    else if c.cached.Some? then (c, FromRedis, c.cached)
    else if !MariaStatus(w).Ok? then (c, MariaStatus(w), None)
    else if c.table.None? then (c, NotFound, None)
    else (if RedisWritten(w) then c.(cached := c.table) else c, FromMaria, c.table)
  }

  datatype Command<V> = Put(value: V) | Get | Delete

  function Apply<V>(c: Cell<V>, command: Command<V>, w: Weather): (Cell<V>, Status) {
    match command
    case Put(value) => PutCell(c, value, w)
    case Delete => DeleteCell(c, w)
    case Get => (GetCell(c, w).0, GetCell(c, w).1)
  }

  // Whether a call changes the table.
  predicate Writes<V>(command: Command<V>, w: Weather) {
    !command.Get? && MariaStatus(w).Ok?
  }

  // A call that changes the table, misses the cache and finds something else there.
  predicate LeavesStale<V(==)>(c: Cell<V>, command: Command<V>, w: Weather) {
    && Writes(command, w) && !RedisWritten(w) && c.cached.Some?
    && (command.Put? ==> c.cached != Some(command.value))
  }

  // Exactly when one call keeps the cache right, from what is there before the call and what the servers
  // do with its commands. A call that changes the table decides it alone, any other call changes nothing
  // about it.
  lemma CallKeepsCoherence<V>(c: Cell<V>, command: Command<V>, w: Weather)
    ensures Coherent(Apply(c, command, w).0) <==>
            if Writes(command, w) then !LeavesStale(c, command, w) else Coherent(c)
    ensures LeavesStale(c, command, w) ==> Apply(c, command, w).1.OkRedisFailed?
  {
  }

  // A call sequence with the weather of each call.
  function ApplyAll<V>(c: Cell<V>, calls: seq<(Command<V>, Weather)>): Cell<V> {
    if calls == [] then c
    else
      var last := calls[|calls| - 1];
      Apply(ApplyAll(c, calls[..|calls| - 1]), last.0, last.1).0
  }

  // The last call that changed the table, if any did, did not leave the cache behind.
  predicate Settled<V(==)>(c: Cell<V>, calls: seq<(Command<V>, Weather)>) {
    calls == [] ||
    (var before, last := calls[..|calls| - 1], calls[|calls| - 1];
     if Writes(last.0, last.1) then !LeavesStale(ApplyAll(c, before), last.0, last.1) else Settled(c, before))
  }

  // A get answers what the table holds, or fails, or finds nothing where there is nothing.
  predicate GetIsRight<V(==)>(c: Cell<V>, w: Weather) {
    var (_, status, value) := GetCell(c, w);
    (status.IsOk() ==> value == c.table && value.Some?) && (status.NotFound? ==> c.table.None?)
  }

  // Over any sequence of calls at all: the cache agrees with the table afterwards, and every later get is
  // right whatever the servers answer, if and only if the last change of the table did not leave the
  // cache behind.
  lemma {:induction false} RightExactlyWhenSettled<V>(c: Cell<V>, calls: seq<(Command<V>, Weather)>)
    requires Coherent(c)
    ensures Coherent(ApplyAll(c, calls)) <==> Settled(c, calls)
    ensures (forall w :: GetIsRight(ApplyAll(c, calls), w)) <==> Settled(c, calls)
  {
    if calls != [] {
      var before, last := calls[..|calls| - 1], calls[|calls| - 1];
      RightExactlyWhenSettled(c, before);
      CallKeepsCoherence(ApplyAll(c, before), last.0, last.1);
    }
    RightWhenCoherent(ApplyAll(c, calls));
  }

  lemma RightWhenCoherent<V>(c: Cell<V>)
    ensures (forall w :: GetIsRight(c, w)) <==> Coherent(c)
  {
    var clear := Weather(true, true, true, true, true, Answered, Answered);
    assert GetIsRight(c, clear) ==> Coherent(c);
  }

  // No call of the sequence reports that Maria succeeded and Redis failed.
  predicate NonePartial<V>(c: Cell<V>, calls: seq<(Command<V>, Weather)>) {
    calls == [] ||
    (var before, last := calls[..|calls| - 1], calls[|calls| - 1];
     NonePartial(c, before) && !Apply(ApplyAll(c, before), last.0, last.1).1.OkRedisFailed?)
  }

  // Over any sequence of calls none of which reports a Redis failure, the cache keeps agreeing with
  // the table; so a get that succeeds, also with Maria down, answers what the table holds, and "not
  // found" means the table has no entry.
  lemma {:induction false} GetsAnswerTheTable<V>(c: Cell<V>, calls: seq<(Command<V>, Weather)>, w: Weather)
    requires Coherent(c) && NonePartial(c, calls)
    ensures Coherent(ApplyAll(c, calls))
    ensures var now := ApplyAll(c, calls);
            var (now', status, value) := GetCell(now, w);
            && (status.IsOk() ==> value == now.table && value.Some?)
            && (status.NotFound? ==> now.table.None?)
            && now'.table == now.table
    ensures w.redisUp && w.redisGet.Answered? && ApplyAll(c, calls).cached.Some? ==>
            GetCell(ApplyAll(c, calls), w).1 == FromRedis
  {
    if calls != [] {
      GetsAnswerTheTable(c, calls[..|calls| - 1], w);
    }
  }

  // Redis answers a read.
  predicate Reads(w: Weather) {
    w.redisUp && w.redisGet.Answered?
  }

  // Maria takes a statement.
  predicate MariaWorks(w: Weather) {
    w.mariaUp && w.tableValid && w.ensureOk && w.statementOk
  }

  // A put works exactly if Maria takes it, and otherwise changes nothing. After one that works the table has
  // the value; every read that Redis answers gives it, from the cache if the put got there, and from Maria
  // if nothing was cached.
  lemma PutThenGet<V>(c: Cell<V>, value: V, w: Weather, later: Weather)
    ensures var (c', status) := PutCell(c, value, w);
            && (status.IsOk() <==> MariaWorks(w))
            && (status.OkRedisFailed? <==> MariaWorks(w) && !(w.redisUp && w.redisWrite.Answered?))
            && (!status.IsOk() ==> c' == c)
            && (status.MariaUnavailable? <==> !w.mariaUp)
            && (status.IsOk() ==> c'.table == Some(value) && (c'.cached == Some(value) || c'.cached == c.cached))
            && (status.Ok? && Reads(later) ==> GetCell(c', later) == (c', FromRedis, Some(value)))
            && (status.IsOk() && c.cached.None? && Reads(later) && MariaWorks(later) ==>
                  GetCell(c', later).1.IsOk() && GetCell(c', later).2 == Some(value))
  {
  }

  // A delete likewise: afterwards a read finds nothing, once the cache has been told.
  lemma DeleteThenGet<V>(c: Cell<V>, w: Weather, later: Weather)
    ensures var (c', status) := DeleteCell(c, w);
            && (status.IsOk() <==> MariaWorks(w))
            && (status.OkRedisFailed? <==> MariaWorks(w) && !(w.redisUp && w.redisWrite.Answered?))
            && (!status.IsOk() ==> c' == c)
            && (status.IsOk() ==> c'.table.None? && (c'.cached.None? || c'.cached == c.cached))
            && (status.Ok? && Reads(later) && MariaWorks(later) ==> GetCell(c', later) == (c', NotFound, None))
            && (status.Ok? && Reads(later) && !later.mariaUp ==> GetCell(c', later) == (c', MariaUnavailable, None))
  {
  }

  // A get changes nothing but the cache, and that only by what it has found in the table; then the next one
  // is answered without Maria. It fails without an answer of Redis, and a miss goes to Maria.
  lemma GetFillsCache<V>(c: Cell<V>, w: Weather, later: Weather)
    ensures var (c', status, value) := GetCell(c, w);
            && (!Reads(w) ==> !status.IsOk() && c' == c)
            && (Reads(w) && c.cached.Some? ==> status.FromRedis? && value == c.cached && c' == c)
            && (Reads(w) && c.cached.None? && !MariaWorks(w) ==> !status.IsOk() && !status.NotFound? && c' == c)
            && (Reads(w) && c.cached.None? && MariaWorks(w) && c.table.None? ==> status.NotFound? && c' == c)
            && (Reads(w) && c.cached.None? && MariaWorks(w) && c.table.Some? ==>
                  && status.FromMaria? && value == c.table && c'.table == c.table
                  && (w.redisWrite.Answered? ==> c'.cached == c.table)
                  && (c'.cached.Some? && Reads(later) ==> GetCell(c', later) == (c', FromRedis, c.table)))
  {
  }

  // The report matters: a put whose Redis write failed without being executed leaves a cached entry
  // behind that later gets answer instead of the table.
  lemma PartialPutServesTheOldValue<V>(c: Cell<V>, value: V, w: Weather, later: Weather)
    requires Coherent(c) && c.cached.Some? && c.cached != Some(value)
    requires MariaStatus(w).Ok? && w.redisUp && w.redisWrite == Lost(false)
    requires later.redisUp && later.redisGet.Answered?
    ensures var (c', status) := PutCell(c, value, w);
            && status.OkRedisFailed?
            && GetCell(c', later).2 == c.cached && c'.table == Some(value) && GetCell(c', later).2 != c'.table
  {
  }

  // ----- the service -----

  const ENTRIES := "entries:"

  function CacheKey(prefix: string, key: string): string {
    prefix + (ENTRIES + key)
  }

  lemma CacheKeyInjective(prefix: string, k: string, l: string)
    ensures CacheKey(prefix, k) == CacheKey(prefix, l) <==> k == l
  {
    assert CacheKey(prefix, k)[|prefix|..][|ENTRIES|..] == k;
    assert CacheKey(prefix, l)[|prefix|..][|ENTRIES|..] == l;
  }

  class StorageService<V> {
    const prefix: string
    const tableValid: bool
    var redisUp: bool
    var mariaHandle: bool
    var mariaDisabled: bool
    var redis: map<string, V>
    var table: map<string, V>

    constructor (prefix: string, tableValid: bool)
      ensures this.prefix == prefix && this.tableValid == tableValid
      ensures redis == map[] && table == map[] && !redisUp && !mariaHandle && !mariaDisabled
    {
      this.prefix, this.tableValid := prefix, tableValid;
      redis, table := map[], map[];
      redisUp, mariaHandle, mariaDisabled := false, false, false;
    }

    function CellAt(key: string): Cell<V>
      reads this
    {
      Cell(Lookup(table, key), Lookup(redis, CacheKey(prefix, key)))
    }

    predicate MariaUp()
      reads this
    {
      mariaHandle && !mariaDisabled
    }

    function ConnectionsNow(): Connections
      reads this
    {
      Connections(redisUp, MariaUp(), tableValid)
    }

    // The weather of a call made now, given the servers' answers.
    function WeatherNow(answers: Weather): Weather
      reads this
    {
      Under(ConnectionsNow(), answers)
    }

    method RedisSet(suffix: string, value: V, reply: Reply) returns (status: Status)
      modifies this`redis
      ensures redis == if redisUp && reply.Executed() then old(redis)[prefix + suffix := value] else old(redis)
      ensures status == if !redisUp then RedisUnavailable else if reply.Lost? then RedisError else Ok
    {
      if !redisUp {
        return RedisUnavailable;
      }
      if reply.Executed() {
        redis := redis[prefix + suffix := value];
      }
      status := if reply.Lost? then RedisError else Ok;
    }

    method RedisGet(suffix: string, reply: Reply) returns (status: Status, value: Option<V>)
      ensures value == if redisUp && reply.Answered? then Lookup(redis, prefix + suffix) else None
      ensures status == if !redisUp then RedisUnavailable
                        else if reply.Lost? then RedisError
                        else if value.Some? then Ok else Nil
    {
      if !redisUp {
        return RedisUnavailable, None;
      }
      if reply.Lost? {
        return RedisError, None;
      }
      value := Lookup(redis, prefix + suffix);
      status := if value.Some? then Ok else Nil;
    }

    method RedisDelete(suffix: string, reply: Reply) returns (status: Status)
      modifies this`redis
      ensures redis == if redisUp && reply.Executed() then old(redis) - {prefix + suffix} else old(redis)
      ensures status == if !redisUp then RedisUnavailable else if reply.Lost? then RedisError else Ok
    {
      if !redisUp {
        return RedisUnavailable;
      }
      if reply.Executed() {
        redis := redis - {prefix + suffix};
      }
      status := if reply.Lost? then RedisError else Ok;
    }

    method EnsureMariaEntriesTable(ok: bool) returns (status: Status)
      ensures status == if !MariaUp() then MariaUnavailable
                        else if !tableValid then BadTablePrefix
                        else if !ok then MariaError else Ok
    {
      if !MariaUp() {
        return MariaUnavailable;
      }
      if !tableValid {
        return BadTablePrefix;
      }
      status := if ok then Ok else MariaError;
    }

    method DatasetPut(key: string, value: V, answers: Weather) returns (status: Status)
      modifies this`redis, this`table
      ensures key == "" ==> status == (if MariaUp() then EmptyKey else MariaUnavailable)
      ensures key == "" ==> redis == old(redis) && table == old(table)
      ensures key != "" ==> (CellAt(key), status) == PutCell(old(CellAt(key)), value, WeatherNow(answers))
      ensures forall l :: l != key ==> CellAt(l) == old(CellAt(l))
    {
      if !MariaUp() {
        return MariaUnavailable;
      }
      if key == "" {
        return EmptyKey;
      }
      status := EnsureMariaEntriesTable(answers.ensureOk);
      if !status.Ok? {
        return;
      }
      if !answers.statementOk {
        return MariaError;
      }
      OtherCells(prefix, key);
      table := table[key := value];
      var redisStatus := RedisSet(ENTRIES + key, value, answers.redisWrite);
      status := if redisStatus.Ok? then Ok else OkRedisFailed;
    }

    method DatasetGet(key: string, answers: Weather) returns (status: Status, value: Option<V>)
      modifies this`redis
      ensures key == "" ==> status == EmptyKey && value == None && redis == old(redis)
      ensures key != "" ==> (CellAt(key), status, value) == GetCell(old(CellAt(key)), WeatherNow(answers))
      ensures forall l :: l != key ==> CellAt(l) == old(CellAt(l))
    {
      value := None;
      if key == "" {
        return EmptyKey, None;
      }
      var cached;
      status, cached := RedisGet(ENTRIES + key, answers.redisGet);
      if status.Ok? {
        return FromRedis, cached;
      }
      if !status.Nil? {
        return;
      }
      status := EnsureMariaEntriesTable(answers.ensureOk);
      if !status.Ok? {
        return;
      }
      if !answers.statementOk {
        return MariaError, None;
      }
      if key !in table {
        return NotFound, None;
      }
      OtherCells(prefix, key);
      value := Some(table[key]);
      var _ := RedisSet(ENTRIES + key, table[key], answers.redisWrite);
      status := FromMaria;
    }

    method DatasetDelete(key: string, answers: Weather) returns (status: Status)
      modifies this`redis, this`table
      ensures key == "" ==> status == (if MariaUp() then EmptyKey else MariaUnavailable)
      ensures key == "" ==> redis == old(redis) && table == old(table)
      ensures key != "" ==> (CellAt(key), status) == DeleteCell(old(CellAt(key)), WeatherNow(answers))
      ensures forall l :: l != key ==> CellAt(l) == old(CellAt(l))
    {
      if !MariaUp() {
        return MariaUnavailable;
      }
      if key == "" {
        return EmptyKey;
      }
      status := EnsureMariaEntriesTable(answers.ensureOk);
      if !status.Ok? {
        return;
      }
      if !answers.statementOk {
        return MariaError;
      }
      OtherCells(prefix, key);
      table := table - {key};
      var redisStatus := RedisDelete(ENTRIES + key, answers.redisWrite);
      status := if redisStatus.Ok? then Ok else OkRedisFailed;
    }

    // Disabling closes the handle; enabling only lifts the ban, the next refresh reconnects.
    method DisableMariaTarget()
      modifies this`mariaHandle, this`mariaDisabled
      ensures mariaDisabled && !mariaHandle && !MariaUp()
    {
      mariaDisabled, mariaHandle := true, false;
    }

    method EnableMariaTarget() returns (wasDisabled: bool)
      modifies this`mariaDisabled
      ensures wasDisabled == old(mariaDisabled) && !mariaDisabled
    {
      wasDisabled := mariaDisabled;
      mariaDisabled := false;
    }

    // Pings what is connected and connects what is not; the arguments say what answers.
    method RefreshConnections(redisAnswers: bool, mariaAnswers: bool)
      modifies this`redisUp, this`mariaHandle
      ensures redisUp == redisAnswers && mariaHandle == (mariaAnswers && !mariaDisabled)
    {
      redisUp := redisAnswers;
      mariaHandle := if mariaDisabled then false else mariaAnswers;
    }
  }

  lemma OtherCells(prefix: string, key: string)
    ensures forall l :: l != key ==> CacheKey(prefix, l) != CacheKey(prefix, key)
    ensures prefix + (ENTRIES + key) == CacheKey(prefix, key)
  {
    forall l | l != key
      ensures CacheKey(prefix, l) != CacheKey(prefix, key)
    {
      CacheKeyInjective(prefix, l, key);
    }
  }
}
