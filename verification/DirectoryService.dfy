// The directory service of one process, as the source runs it: a loop over Redis commands, with other
// processes acting on the same Redis between any two of them. The interference is a method that does
// nothing but whose contract allows everything the other processes may do.
module DirectoryService {
  import opened Common
  import opened DirectoryProtocol
  import TextForms

  // What the others may do to Redis while this process has drawn the id mine and not yet written it.
  ghost predicate Rely(r: Redis, r': Redis, mine: Option<nat>) {
    && (EntriesOk(r) ==> Sound(r, r'))
    && (forall k :: k in r.entries ==> k in r'.entries && r'.entries[k] == r.entries[k])
    && (EntriesOk(r) && mine.Some? ==>
          forall k :: k in r'.entries && k !in r.entries ==> r'.entries[k] != mine.value)
  }

  // The ids stay distinct and below a counter that does not go back and does not disappear.
  ghost predicate Sound(r: Redis, r': Redis)
    requires EntriesOk(r)
  {
    && EntriesOk(r') && CounterValue(r.counter) <= CounterValue(r'.counter)
    && (r.counter.Number? ==> r'.counter.Number?)
  }

  function DrawnId(s: State, p: ProcessName): Option<nat> {
    if Drawn(s, p) then Some(s.processes[p].phase.id) else None
  }

  // In the protocol every step of another process is covered by the rely.
  lemma OthersStepsAreCovered(first: State, steps: seq<Step>, step: Step, p: ProcessName)
    requires Start(first) && RunOk(first, steps) && StepOk(Run(first, steps), step)
    requires p in Run(first, steps).processes && step.process != p
    ensures Rely(Run(first, steps).redis, Next(Run(first, steps), step).redis, DrawnId(Run(first, steps), p))
  {
    RunInv(first, steps);
    var s := Run(first, steps);
    NextInv(first, s, step);
    StepGrowsRedis(first, s, step);
    if Drawn(s, p) && Drawn(s, step.process) {
      assert DrawnOk(s, p);
    }
  }

  // The ways in which a step of process p can change Redis.
  predicate Writes(s: State, p: ProcessName, r: Redis) {
    || r == s.redis
    || (p in s.processes && WritesFor(s.processes[p].phase, s.redis, r))
  }

  predicate WritesFor(phase: Phase, r: Redis, r': Redis) {
    match phase
    case SetCounterIfAbsent(_) => r.counter.Absent? && r' == r.(counter := Number(FIRST_COUNTER))
    case ResetCounter(_) => r' == r.(counter := Number(FIRST_COUNTER))
    case Increment(_) => Incremented(r.counter).Some? && r' == r.(counter := Number(Incremented(r.counter).value))
    case SetEntryIfAbsent(key, id) => key !in r.entries && r' == WithEntry(r, key, id)
    case _ => false
  }

  lemma NextWrites(s: State, step: Step)
    ensures Writes(s, step.process, Next(s, step).redis)
  {
  }

  // No step takes an entry away or the counter back, and a new entry carries the id its writer drew.
  lemma StepGrowsRedis(first: State, s: State, step: Step)
    requires Inv(first, s) && StepOk(s, step)
    ensures var r, r' := s.redis, Next(s, step).redis;
            && !r'.counter.Text?
            && (forall k :: k in r.entries ==> k in r'.entries && r'.entries[k] == r.entries[k])
            && (r.counter.Number? ==> r'.counter.Number?)
            && CounterValue(r.counter) <= CounterValue(r'.counter)
            && (forall k :: k in r'.entries && k !in r.entries ==>
                  Drawn(s, step.process) && r'.entries[k] == s.processes[step.process].phase.id)
  {
    NextWrites(s, step);
    if step.process in s.processes {
      assert ProcessOk(s, step.process);
    }
  }

  // The shared Redis as one process sees it: commands that may lose a bounded number of replies.
  class SharedRedis {
    var redis: Redis
    var up: bool
    var losses: nat  // how many more replies the connection may lose
    ghost var own: seq<Key>      // the entries that this process has made, by writes it was answered
    ghost var foreign: set<Key>  // the entries that have come from others

    constructor (redis: Redis, up: bool, losses: nat)
      ensures this.redis == redis && this.up == up && this.losses == losses && own == [] && foreign == {}
    {
      this.redis, this.up, this.losses, own, foreign := redis, up, losses, [], {};
    }

    method Interfere(ghost mine: Option<nat>)
      modifies this`redis, this`foreign
      ensures Rely(old(redis), redis, mine)
      ensures foreign == old(foreign) + (redis.entries.Keys - old(redis).entries.Keys)
    {
      assert redis.entries.Keys - redis.entries.Keys == {};
    }

    // Whether the next reply arrives, and whether a command whose reply is lost was executed.
    method NextReply() returns (reply: Reply)
      modifies this`losses
      ensures losses <= old(losses)
      ensures reply.Lost? <==> !up || losses < old(losses)
      ensures !up ==> !reply.Executed()
    {
      if !up {
        return Lost(false);
      }
      var lose: bool, executed: bool := *, *;
      if lose && losses > 0 {
        losses := losses - 1;
        return Lost(executed);
      }
      return Answered;
    }

    method GetEntry(key: Key) returns (value: Option<nat>)
      modifies this`losses
      ensures losses <= old(losses)
      ensures value.Some? ==> up && key in redis.entries && value.value == redis.entries[key]
      ensures value.None? && up && key in redis.entries ==> losses < old(losses)
    {
      var reply := NextReply();
      value := if reply.Answered? && key in redis.entries then Some(redis.entries[key]) else None;
    }

    method GetCounter() returns (value: Option<Counter>)
      modifies this`losses
      ensures losses <= old(losses)
      ensures value.Some? ==> up && value.value == redis.counter && !redis.counter.Absent?
      ensures value.None? && up && losses == old(losses) ==> redis.counter.Absent?
    {
      var reply := NextReply();
      value := if reply.Answered? && !redis.counter.Absent? then Some(redis.counter) else None;
    }

    method SetCounterFirst(onlyIfAbsent: bool)
      modifies this`redis, this`losses
      ensures losses <= old(losses)
      ensures redis == old(redis) || redis == old(redis).(counter := Number(FIRST_COUNTER))
      ensures onlyIfAbsent && !old(redis).counter.Absent? ==> redis == old(redis)
      ensures up && losses == old(losses) && (onlyIfAbsent ==> old(redis).counter.Absent?) ==>
        redis.counter == Number(FIRST_COUNTER)
      ensures !up ==> redis == old(redis)
    {
      var reply := NextReply();
      if reply.Executed() && (onlyIfAbsent ==> redis.counter.Absent?) {
        redis := redis.(counter := Number(FIRST_COUNTER));
      }
    }

    method Increment() returns (value: Option<int>)
      modifies this`redis, this`losses
      ensures losses <= old(losses)
      ensures redis == old(redis) ||
              (Incremented(old(redis).counter).Some? &&
               redis == old(redis).(counter := Number(Incremented(old(redis).counter).value)))
      ensures value.Some? ==> value == Incremented(old(redis).counter) && redis.counter == Number(value.value)
      ensures value.None? ==> !up || losses < old(losses) || Incremented(old(redis).counter).None?
      ensures !up ==> value.None? && redis == old(redis)
    {
      var reply := NextReply();
      var n := Incremented(redis.counter);
      if reply.Executed() && n.Some? {
        redis := redis.(counter := Number(n.value));
      }
      value := if reply.Answered? then n else None;
    }

    // Some(true): set; Some(false): the key exists; None: no reply.
    method SetEntryIfAbsent(key: Key, id: nat) returns (set_: Option<bool>)
      modifies this`redis, this`losses, this`own
      ensures own == if set_ == Some(true) then old(own) + [key] else old(own)
      ensures losses <= old(losses)
      ensures redis == old(redis) || (key !in old(redis).entries && redis == WithEntry(old(redis), key, id))
      ensures set_.Some? && set_.value ==> key !in old(redis).entries && redis == WithEntry(old(redis), key, id)
      ensures set_.Some? && !set_.value ==> key in redis.entries && redis == old(redis)
      ensures set_.None? ==> !up || losses < old(losses)
      ensures set_.Some? ==> up
    {
      var reply := NextReply();
      var taken := key in redis.entries;
      if reply.Executed() && !taken {
        redis := WithEntry(redis, key, id);
      }
      if reply.Answered? && !taken {
        own := own + [key];
      }
      set_ := if reply.Answered? then Some(!taken) else None;
    }
  }

  function WithEntry(r: Redis, key: Key, id: nat): Redis {
    r.(entries := r.entries[key := id])
  }

  datatype Attempt = Created(id: nat) | Exists | GaveUp

  class PlayerDirectoryService {
    var storage: SharedRedis?
    var entries: map<Key, nat>
    var nextPlayerId: nat

    constructor (storage: SharedRedis?)
      ensures this.storage == storage && entries == map[] && nextPlayerId == 100000
    {
      this.storage, entries, nextPlayerId := storage, map[], 100000;
    }

    // The id of an account, created when there is none. local tells that the id is the process's own
    // because Redis did not cooperate. The loop ends: it goes round again only after a lost reply.
    method ResolveOrCreate(account: TextForms.Account) returns (id: nat, created: bool, ghost local: bool)
      modifies this`entries, this`nextPlayerId, storage
      ensures var key := TextForms.DirectoryKey(account);
              && entries == old(entries)[key := id]
              && (key in old(entries) ==> id == old(entries)[key] && !created && !local)
      ensures storage == null && TextForms.DirectoryKey(account) !in old(entries) ==> local
      ensures storage != null ==>
        Creates(TextForms.DirectoryKey(account), TextForms.DirectoryKey(account) in old(entries), created, local,
                old(storage.redis), old(storage.own), storage.own, storage.foreign)
      ensures storage != null && storage.up && storage.losses == old(storage.losses) &&
              EntriesOk(old(storage.redis)) && storage.redis.counter != Number(MAX_INT64) ==>
        Unmade(TextForms.DirectoryKey(account), old(entries), old(storage.redis), storage.foreign) ==> created && !local
      ensures local ==> created && id == old(nextPlayerId) && nextPlayerId == AsUint64(id + 1)
      ensures !local ==> nextPlayerId == old(nextPlayerId)
      ensures storage != null ==>
        && storage.up == old(storage.up) && storage.losses <= old(storage.losses)
        && Resolved(old(storage.redis), storage.redis, storage.losses == old(storage.losses),
                    TextForms.DirectoryKey(account), id, created, local)
        && (local ==>
              !storage.up || storage.losses < old(storage.losses) || Exhausted(old(storage.redis), storage.redis))
        && (!local && TextForms.DirectoryKey(account) !in old(entries) ==>
              TextForms.DirectoryKey(account) in storage.redis.entries &&
              storage.redis.entries[TextForms.DirectoryKey(account)] == id)
    {
      var key := TextForms.DirectoryKey(account);
      local := false;
      if key in entries {
        return entries[key], false, false;
      }
      if storage != null {
        storage.Interfere(None);
        var found := storage.GetEntry(key);
        if found.Some? {
          entries := entries[key := found.value];
          return found.value, false, false;
        }
        while true
          invariant storage == old(storage) && storage.up == old(storage.up) && storage.losses <= old(storage.losses)
          invariant Grown(old(storage.redis), storage.redis, storage.losses == old(storage.losses))
          invariant entries == old(entries) && nextPlayerId == old(nextPlayerId) && storage.own == old(storage.own)
          invariant storage.redis.entries.Keys <= old(storage.redis).entries.Keys + storage.foreign
          decreases storage.losses
        {
          var attempt := TryCreate(storage, key);
          if attempt.Created? {
            id := attempt.id;
            entries := entries[key := id];
            return id, true, false;
          }
          if attempt.GaveUp? {
            break;
          }
          storage.Interfere(None);
          var retry := storage.GetEntry(key);
          if retry.Some? {
            entries := entries[key := retry.value];
            return retry.value, false, false;
          }
        }
      }
      id := nextPlayerId;
      nextPlayerId := AsUint64(id + 1);
      entries := entries[key := id];
      return id, true, true;
    }

    // One round of the loop up to the conditional write of the entry.
    static method TryCreate(storage: SharedRedis, key: Key) returns (attempt: Attempt)
      modifies storage
      ensures storage.up == old(storage.up) && storage.losses <= old(storage.losses)
      ensures Grown(old(storage.redis), storage.redis, storage.losses == old(storage.losses))
      ensures attempt.GaveUp? ==>
        !storage.up || storage.losses < old(storage.losses) || Exhausted(old(storage.redis), storage.redis)
      ensures attempt.Exists? ==> storage.up && key in storage.redis.entries &&
                                  storage.redis.entries.Keys <= old(storage.redis).entries.Keys + storage.foreign
      ensures old(storage.foreign) <= storage.foreign
      ensures storage.own == if attempt.Created? then old(storage.own) + [key] else old(storage.own)
      ensures attempt.Created? ==>
        && key in storage.redis.entries && storage.redis.entries[key] == attempt.id
        && Resolved(old(storage.redis), storage.redis, storage.losses == old(storage.losses),
                    key, attempt.id, true, false)
    {
      EnsureCounter(storage);
      storage.Interfere(None);
      ghost var before := storage.redis;
      var next := storage.Increment();
      if next.None? {
        return GaveUp;
      }
      var id := AsUint64(next.value);
      ghost var drawn := storage.redis;
      storage.Interfere(Some(id));
      EntryStaysDistinct(before, drawn, storage.redis, next.value, key);
      var create := storage.SetEntryIfAbsent(key, id);
      if create.Some? && create.value {
        return Created(id);
      }
      return if create.None? then GaveUp else Exists;
    }

    // Read the counter and write its first value when there is none, when it does not parse and when it is
    // too small. Whatever the others do meanwhile, good contents have a counter afterwards.
    static method EnsureCounter(storage: SharedRedis)
      modifies storage
      ensures storage.up == old(storage.up) && storage.losses <= old(storage.losses)
      ensures Grown(old(storage.redis), storage.redis, storage.losses == old(storage.losses))
      ensures storage.up && storage.losses == old(storage.losses) && EntriesOk(old(storage.redis)) ==>
        storage.redis.counter.Number?
      ensures storage.own == old(storage.own) && old(storage.foreign) <= storage.foreign
      ensures storage.redis.entries.Keys <= old(storage.redis).entries.Keys + storage.foreign
    {
      storage.Interfere(None);
      var counter := storage.GetCounter();
      storage.Interfere(None);
      if counter.None? {
        storage.SetCounterFirst(true);
      } else if NeedsReset(counter.value) {
        storage.SetCounterFirst(false);
      }
    }

    // Lookup never creates: it answers what is cached or what Redis holds, and caches it.
    method Lookup(account: TextForms.Account) returns (id: Option<nat>)
      modifies this`entries, storage
      ensures var key := TextForms.DirectoryKey(account);
              && (key in old(entries) ==> id == Some(old(entries)[key]))
              && entries == (if id.Some? then old(entries)[key := id.value] else old(entries))
              && (id.Some? && key !in old(entries) ==>
                    storage != null && key in storage.redis.entries && storage.redis.entries[key] == id.value)
      ensures storage != null ==> Grown(old(storage.redis), storage.redis, true) && storage.own == old(storage.own)
      ensures id.None? ==> TextForms.DirectoryKey(account) !in old(entries)
      ensures id.None? && storage != null && storage.up && storage.losses == old(storage.losses) ==>
        TextForms.DirectoryKey(account) !in storage.redis.entries
    {
      var key := TextForms.DirectoryKey(account);
      if key in entries {
        return Some(entries[key]);
      }
      if storage == null {
        return None;
      }
      storage.Interfere(None);
      id := storage.GetEntry(key);
      if id.Some? {
        entries := entries[key := id.value];
      }
    }
  }

  // Contents whose promises survive a call: good ones whose counter exists, or whose counter is created
  // by a process that loses no reply.
  ghost predicate Trusted(r: Redis, lossless: bool) {
    EntriesOk(r) && (r.counter.Number? || lossless)
  }

  // A call answers created exactly for the entry that its own write has made, and for a local id; what it
  // did not create was cached, was there before, or came from another process meanwhile.
  ghost predicate Creates(key: Key, cached: bool, created: bool, local: bool,
                          before: Redis, own: seq<Key>, own': seq<Key>, foreign: set<Key>) {
    && own' == (if created && !local then own + [key] else own)
    && (local ==> created)
    && (!created ==> cached || key in before.entries || key in foreign)
  }

  // Nobody has made an entry for the key.
  ghost predicate Unmade(key: Key, cache: map<Key, nat>, before: Redis, foreign: set<Key>) {
    key !in cache && key !in before.entries && key !in foreign
  }

  // Redis after any number of commands and interferences, seen from before.
  ghost predicate Grown(r: Redis, r': Redis, lossless: bool) {
    && (Trusted(r, lossless) ==> Sound(r, r'))
    && (forall k :: k in r.entries ==> k in r'.entries && r'.entries[k] == r.entries[k])
  }

  // The counter has reached the largest 64-bit value, or the contents were not good to begin with.
  ghost predicate Exhausted(r: Redis, r': Redis) {
    EntriesOk(r) ==> r'.counter == Number(MAX_INT64)
  }

  // What one call promises about Redis: nothing is lost, good contents stay good, and a created id is
  // above the old counter, was not there before and belongs to no other key.
  ghost predicate Resolved(r: Redis, r': Redis, lossless: bool, key: Key, id: nat, created: bool, local: bool) {
    && Grown(r, r', lossless)
    && (created && !local && Trusted(r, lossless) ==>
          && key !in r.entries && id > CounterValue(r.counter)
          && forall k :: k in r'.entries && r'.entries[k] == id ==> k == key)
  }

  // Writing an id drawn from a sound counter keeps the keyspace sound.
  lemma EntryStaysDistinct(before: Redis, drawn: Redis, free: Redis, n: int, key: Key)
    requires Incremented(before.counter) == Some(n) && drawn == before.(counter := Number(n))
    requires Rely(drawn, free, Some(AsUint64(n)))
    ensures EntriesOk(before) && before.counter.Number? ==>
      && AsUint64(n) == n > CounterValue(before.counter) && Sound(before, free)
      && (forall k :: k in free.entries ==> free.entries[k] != n)
      && (key !in free.entries ==> Sound(before, WithEntry(free, key, n)))
  {
    if EntriesOk(before) && before.counter.Number? {
      assert EntriesOk(drawn);
      assert AsUint64(n) == n;
    }
  }
}
