// The player id directory: any number of processes resolve account keys to player ids through one
// Redis keyspace, with no lock between them. Every Redis command is one atomic step; a reply can get
// lost, with the command executed or not. Here: the state machine and what holds after every run.
module DirectoryProtocol {
  import opened Common

  type Key = string      // TextForms.DirectoryKey of an account
  type ProcessName = nat

  const FIRST_COUNTER: int := 99999
  const MAX_INT64: int := 0x7FFF_FFFF_FFFF_FFFF

  // The counter key: absent, an integer, or a text INCRBY refuses, with what stoll reads from it.
  datatype Counter = Absent | Number(n: int) | Text(stoll: Option<int>)

  datatype Redis = Redis(counter: Counter, entries: map<Key, nat>)

  // Whether the process overwrites a counter it has read with the first value.
  predicate NeedsReset(c: Counter) {
    match c
    case Absent => false
    case Number(n) => n < FIRST_COUNTER
    case Text(stoll) => stoll.None? || stoll.value < FIRST_COUNTER
  }

  // INCRBY 1: an absent key counts as 0; a text and an overflow are errors.
  function Incremented(c: Counter): Option<int> {
    match c
    case Absent => Some(1)
    case Number(n) => if n < MAX_INT64 then Some(n + 1) else None
    case Text(_) => None
  }

  function AsUint64(n: int): nat {
    n % TWO_TO_64
  }

  // What the process does next, for the key it is resolving.
  datatype Phase =
    | Idle
    | GetEntry(key: Key)
    | GetCounter(key: Key)
    | SetCounterIfAbsent(key: Key)
    | ResetCounter(key: Key)
    | Increment(key: Key)
    | SetEntryIfAbsent(key: Key, id: nat)
    | RetryGetEntry(key: Key)

  datatype Process = Process(cache: map<Key, nat>, nextLocalId: nat, phase: Phase)

  // One finished call. local marks the fall back to the process's own counter.
  datatype Return = Return(process: ProcessName, key: Key, id: nat, created: bool, local: bool)

  datatype State = State(redis: Redis, processes: map<ProcessName, Process>, log: seq<Return>)

  datatype Step =
    | Begin(process: ProcessName, key: Key)
    | Command(process: ProcessName, reply: Reply)

  // ----- one step -----

  function Finish(s: State, p: ProcessName, key: Key, id: nat, created: bool): State
    requires p in s.processes
  {
    s.(processes := s.processes[p := s.processes[p].(cache := s.processes[p].cache[key := id], phase := Idle)],
       log := s.log + [Return(p, key, id, created, false)])
  }

  function FallBack(s: State, p: ProcessName, key: Key): State
    requires p in s.processes
  {
    var me := s.processes[p];
    var id := me.nextLocalId;
    s.(processes := s.processes[p := Process(me.cache[key := id], AsUint64(id + 1), Idle)],
       log := s.log + [Return(p, key, id, true, true)])
  }

  function GoTo(s: State, p: ProcessName, phase: Phase): State
    requires p in s.processes
  {
    s.(processes := s.processes[p := s.processes[p].(phase := phase)])
  }

  function SetCounter(s: State, c: Counter): State {
    s.(redis := s.redis.(counter := c))
  }

  function BeginCall(s: State, p: ProcessName, key: Key): State
    requires p in s.processes
  {
    var me := s.processes[p];
    if me.phase != Idle then s  // the service's mutex admits one call at a time
    else if key in me.cache then s.(log := s.log + [Return(p, key, me.cache[key], false, false)])
    else GoTo(s, p, GetEntry(key))
  }

  // GET of the entry, first or again: found, or on to the counter.
  function ReadEntry(s: State, p: ProcessName, key: Key, reply: Reply): State
    requires p in s.processes
  {
    if reply.Answered? && key in s.redis.entries then Finish(s, p, key, s.redis.entries[key], false)
    else GoTo(s, p, GetCounter(key))
  }

  function ReadCounterKey(s: State, p: ProcessName, key: Key, reply: Reply): State
    requires p in s.processes
  {
    if reply.Lost? || s.redis.counter.Absent? then GoTo(s, p, SetCounterIfAbsent(key))
    else if NeedsReset(s.redis.counter) then GoTo(s, p, ResetCounter(key))
    else GoTo(s, p, Increment(key))
  }

  function WriteCounter(s: State, p: ProcessName, key: Key, onlyIfAbsent: bool, reply: Reply): State
    requires p in s.processes
  {
    var writes := reply.Executed() && (onlyIfAbsent ==> s.redis.counter.Absent?);
    GoTo(if writes then SetCounter(s, Number(FIRST_COUNTER)) else s, p, Increment(key))
  }

  function IncrementCounter(s: State, p: ProcessName, key: Key, reply: Reply): State
    requires p in s.processes
  {
    var n := Incremented(s.redis.counter);
    var s' := if reply.Executed() && n.Some? then SetCounter(s, Number(n.value)) else s;
    if reply.Lost? || n.None? then FallBack(s', p, key)
    else GoTo(s', p, SetEntryIfAbsent(key, AsUint64(n.value)))
  }

  function WriteEntry(s: State, p: ProcessName, key: Key, id: nat, reply: Reply): State
    requires p in s.processes
  {
    var taken := key in s.redis.entries;
    var s' := if reply.Executed() && !taken then s.(redis := s.redis.(entries := s.redis.entries[key := id])) else s;
    if reply.Lost? then FallBack(s', p, key)
    else if taken then GoTo(s', p, RetryGetEntry(key))
    else Finish(s', p, key, id, true)
  }

  function Next(s: State, step: Step): State {
    if step.process !in s.processes then s
    else
      var p := step.process;
      match step
      case Begin(_, key) => BeginCall(s, p, key)
      case Command(_, reply) =>
        match s.processes[p].phase
        case Idle => s
        case GetEntry(key) => ReadEntry(s, p, key, reply)
        case GetCounter(key) => ReadCounterKey(s, p, key, reply)
        case SetCounterIfAbsent(key) => WriteCounter(s, p, key, true, reply)
        case ResetCounter(key) => WriteCounter(s, p, key, false, reply)
        case Increment(key) => IncrementCounter(s, p, key, reply)
        case SetEntryIfAbsent(key, id) => WriteEntry(s, p, key, id, reply)
        case RetryGetEntry(key) => ReadEntry(s, p, key, reply)
  }

  // ----- runs -----

  // The replies the guarantee needs: an initialising SET NX of the counter reaches Redis, an increment is
  // answered with a number, and the conditional write of an entry is answered. All other replies may get
  // lost.
  predicate StepOk(s: State, step: Step) {
    step.Command? && step.process in s.processes ==>
      ReplyOk(s.processes[step.process].phase, s.redis.counter, step.reply)
  }

  predicate ReplyOk(phase: Phase, counter: Counter, reply: Reply) {
    match phase
    case SetCounterIfAbsent(_) => reply.Executed()
    case Increment(_) => reply.Answered? && Incremented(counter).Some?
    case SetEntryIfAbsent(_, _) => reply.Answered?
    case _ => true
  }

  // The last two are needed exactly for calls not to end with a local id.
  lemma LocalIdsComeFromLostReplies(s: State, step: Step)
    requires NoLocalId(s.log)
    ensures NoLocalId(Next(s, step).log) <==>
            !(step.Command? && step.process in s.processes &&
              (s.processes[step.process].phase.Increment? || s.processes[step.process].phase.SetEntryIfAbsent?) &&
              !ReplyOk(s.processes[step.process].phase, s.redis.counter, step.reply))
  {
    var log, log' := s.log, Next(s, step).log;
    assert |log'| == |log| || |log'| == |log| + 1;
    assert log'[..|log|] == log;
    assert |log'| == |log| + 1 ==> (NoLocalId(log') <==> !log'[|log|].local);
  }

  predicate NoLocalId(log: seq<Return>) {
    forall i :: 0 <= i < |log| ==> !log[i].local
  }

  function Run(s: State, steps: seq<Step>): State {
    if steps == [] then s else Next(Run(s, steps[..|steps| - 1]), steps[|steps| - 1])
  }

  predicate RunOk(s: State, steps: seq<Step>) {
    steps == [] || (RunOk(s, steps[..|steps| - 1]) && StepOk(Run(s, steps[..|steps| - 1]), steps[|steps| - 1]))
  }

  function CounterValue(c: Counter): int
    requires !c.Text?
  {
    if c.Absent? then FIRST_COUNTER else c.n
  }

  predicate CounterOk(c: Counter) {
    !c.Text? && FIRST_COUNTER <= CounterValue(c) <= MAX_INT64
  }

  ghost predicate EntriesOk(r: Redis) {
    && CounterOk(r.counter)
    && (forall k :: k in r.entries ==> r.entries[k] <= CounterValue(r.counter) || r.entries[k] > MAX_INT64)
    && (forall k, l :: k in r.entries && l in r.entries && r.entries[k] == r.entries[l] ==> k == l)
  }

  // A start: every process is idle with an empty cache, the counter is absent or large enough, and the
  // entries that are already there have distinct ids that the counter has passed or never reaches.
  ghost predicate Start(s: State) {
    && EntriesOk(s.redis)
    && s.log == []
    && (forall p :: p in s.processes ==> s.processes[p].phase == Idle && s.processes[p].cache == map[])
  }

  // ----- the invariant -----

  // An id some process has drawn from the counter and not yet written.
  predicate Drawn(s: State, p: ProcessName) {
    p in s.processes && s.processes[p].phase.SetEntryIfAbsent?
  }

  ghost predicate DrawnOk(s: State, p: ProcessName)
    requires Drawn(s, p) && CounterOk(s.redis.counter)
  {
    var id := s.processes[p].phase.id;
    && FIRST_COUNTER < id <= CounterValue(s.redis.counter)
    && (forall k :: k in s.redis.entries ==> s.redis.entries[k] != id)
    && (forall q :: q != p && Drawn(s, q) ==> s.processes[q].phase.id != id)
  }

  ghost predicate ProcessOk(s: State, p: ProcessName)
    requires p in s.processes
  {
    var me := s.processes[p];
    && (forall k :: k in me.cache ==> k in s.redis.entries && s.redis.entries[k] == me.cache[k])
    && !me.phase.ResetCounter?
    && (me.phase.Increment? || me.phase.SetEntryIfAbsent? ==> s.redis.counter.Number?)
    && (me.phase.RetryGetEntry? ==> me.phase.key in s.redis.entries)
  }

  function CreatedCount(log: seq<Return>, key: Key): nat {
    if log == [] then 0
    else CreatedCount(log[..|log| - 1], key) + if log[|log| - 1].key == key && log[|log| - 1].created then 1 else 0
  }

  // Every return gave the id Redis holds, and each entry that is not old was created by one call.
  ghost predicate LogOk(old_: map<Key, nat>, entries: map<Key, nat>, log: seq<Return>) {
    && NoLocalId(log)
    && (forall i :: 0 <= i < |log| ==> log[i].key in entries && entries[log[i].key] == log[i].id)
    && (forall k :: CreatedCount(log, k) == if k in entries && k !in old_ then 1 else 0)
  }

  ghost predicate Inv(first: State, s: State) {
    && EntriesOk(s.redis)
    && (forall p :: Drawn(s, p) ==> DrawnOk(s, p))
    && (forall p :: p in s.processes ==> ProcessOk(s, p))
    && (forall k :: k in first.redis.entries ==> k in s.redis.entries && s.redis.entries[k] == first.redis.entries[k])
    && (forall k :: k in s.redis.entries && k !in first.redis.entries ==> s.redis.entries[k] > FIRST_COUNTER)
    && LogOk(first.redis.entries, s.redis.entries, s.log)
  }

  lemma StartInv(s: State)
    requires Start(s)
    ensures Inv(s, s)
  {
  }

  lemma CountSnoc(log: seq<Return>, r: Return)
    ensures forall k :: CreatedCount(log + [r], k) == CreatedCount(log, k) + if r.key == k && r.created then 1 else 0
  {
    assert (log + [r])[..|log|] == log;
  }

  // Processes other than p keep their drawn ids and their promises while Redis only grows.
  lemma OthersInv(first: State, s: State, s': State, p: ProcessName)
    requires Inv(first, s) && p in s.processes
    requires s'.processes.Keys == s.processes.Keys
    requires forall q :: q in s.processes && q != p ==> s'.processes[q] == s.processes[q]
    requires !Drawn(s', p) && s'.redis.counter == s.redis.counter
    requires forall k :: k in s.redis.entries ==> k in s'.redis.entries && s'.redis.entries[k] == s.redis.entries[k]
    requires forall k :: k in s'.redis.entries && k !in s.redis.entries ==>
               Drawn(s, p) && s'.redis.entries[k] == s.processes[p].phase.id
    ensures forall q :: Drawn(s', q) ==> DrawnOk(s', q)
    ensures forall q :: q in s'.processes && q != p ==> ProcessOk(s', q)
  {
    forall q | Drawn(s', q)
      ensures DrawnOk(s', q)
    {
      assert Drawn(s, q) && DrawnOk(s, q);
    }
    forall q | q in s'.processes && q != p
      ensures ProcessOk(s', q)
    {
      assert ProcessOk(s, q);
    }
  }

  // A step that only moves one process on, without touching entries, cache or log.
  lemma GoToInv(first: State, s: State, p: ProcessName, phase: Phase)
    requires Inv(first, s) && p in s.processes
    requires !phase.ResetCounter? && !phase.SetEntryIfAbsent?
    requires phase.Increment? ==> s.redis.counter.Number?
    requires phase.RetryGetEntry? ==> phase.key in s.redis.entries
    ensures Inv(first, GoTo(s, p, phase))
  {
    OthersInv(first, s, GoTo(s, p, phase), p);
    MoverStaysOk(s, p, phase);
  }

  lemma MoverStaysOk(s: State, p: ProcessName, phase: Phase)
    requires p in s.processes && ProcessOk(s, p)
    requires !phase.ResetCounter? && !phase.SetEntryIfAbsent?
    requires phase.Increment? ==> s.redis.counter.Number?
    requires phase.RetryGetEntry? ==> phase.key in s.redis.entries
    ensures ProcessOk(GoTo(s, p, phase), p)
  {
  }

  // Creating an absent counter at its first value keeps everything.
  lemma CounterSetInv(first: State, s: State)
    requires Inv(first, s) && s.redis.counter.Absent?
    ensures Inv(first, SetCounter(s, Number(FIRST_COUNTER)))
  {
    var s' := SetCounter(s, Number(FIRST_COUNTER));
    assert forall q :: q in s'.processes ==> ProcessOk(s, q);
    assert forall q :: !Drawn(s', q);
  }

  // The state after process p has drawn the next id.
  function WithDrawn(s: State, p: ProcessName, key: Key): State
    requires p in s.processes && s.redis.counter.Number?
  {
    var n := s.redis.counter.n + 1;
    GoTo(SetCounter(s, Number(n)), p, SetEntryIfAbsent(key, AsUint64(n)))
  }

  // Drawing an id: it is above every id in use and every id drawn before.
  lemma DrawInv(first: State, s: State, p: ProcessName, key: Key)
    requires Inv(first, s) && p in s.processes
    requires s.redis.counter.Number? && s.redis.counter.n < MAX_INT64
    ensures Inv(first, WithDrawn(s, p, key))
  {
    var s' := WithDrawn(s, p, key);
    assert AsUint64(s.redis.counter.n + 1) == s.redis.counter.n + 1;
    forall q | Drawn(s', q)
      ensures DrawnOk(s', q)
    {
      DrawnStaysOk(first, s, p, key, q);
    }
    forall q | q in s'.processes
      ensures ProcessOk(s', q)
    {
      assert ProcessOk(s, q);
    }
  }

  lemma DrawnStaysOk(first: State, s: State, p: ProcessName, key: Key, q: ProcessName)
    requires Inv(first, s) && p in s.processes
    requires s.redis.counter.Number? && s.redis.counter.n < MAX_INT64
    requires Drawn(WithDrawn(s, p, key), q)
    ensures DrawnOk(WithDrawn(s, p, key), q)
  {
    var s' := WithDrawn(s, p, key);
    assert AsUint64(s.redis.counter.n + 1) == s.redis.counter.n + 1;
    if q != p {
      assert Drawn(s, q) && DrawnOk(s, q);
    }
    forall r | r != q && Drawn(s', r)
      ensures s'.processes[r].phase.id != s'.processes[q].phase.id
    {
      if r != p {
        assert Drawn(s, r) && DrawnOk(s, r);
      }
    }
  }

  // A return of the id Redis holds keeps the log right.
  lemma FoundLog(old_: map<Key, nat>, entries: map<Key, nat>, log: seq<Return>, r: Return)
    requires LogOk(old_, entries, log) && !r.created && !r.local
    requires r.key in entries && entries[r.key] == r.id
    ensures LogOk(old_, entries, log + [r])
  {
    CountSnoc(log, r);
  }

  // A call that ends with the id Redis holds for its key.
  lemma FoundInv(first: State, s: State, p: ProcessName, key: Key)
    requires Inv(first, s) && p in s.processes && key in s.redis.entries
    ensures Inv(first, Finish(s, p, key, s.redis.entries[key], false))
  {
    var s' := Finish(s, p, key, s.redis.entries[key], false);
    FoundLog(first.redis.entries, s.redis.entries, s.log, Return(p, key, s.redis.entries[key], false, false));
    OthersInv(first, s, s', p);
    assert ProcessOk(s, p);
  }

  lemma BeginInv(first: State, s: State, p: ProcessName, key: Key)
    requires Inv(first, s) && p in s.processes
    ensures Inv(first, BeginCall(s, p, key))
  {
    var me := s.processes[p];
    assert ProcessOk(s, p);
    if me.phase == Idle && key in me.cache {
      FoundLog(first.redis.entries, s.redis.entries, s.log, Return(p, key, me.cache[key], false, false));
      var s' := BeginCall(s, p, key);
      assert forall q :: Drawn(s', q) ==> Drawn(s, q) && DrawnOk(s, q);
      assert forall q :: q in s'.processes ==> ProcessOk(s, q);
    } else if me.phase == Idle {
      GoToInv(first, s, p, GetEntry(key));
    }
  }

  // The state after a call has written the entry of a key that had none.
  function WithCreated(s: State, p: ProcessName): State
    requires Drawn(s, p)
  {
    var SetEntryIfAbsent(key, id) := s.processes[p].phase;
    Finish(s.(redis := s.redis.(entries := s.redis.entries[key := id])), p, key, id, true)
  }

  lemma CreatedInv(first: State, s: State, p: ProcessName)
    requires Inv(first, s) && Drawn(s, p) && s.processes[p].phase.key !in s.redis.entries
    ensures Inv(first, WithCreated(s, p))
  {
    CreatedProcesses(first, s, p);
    CreatedRedis(first, s, p);
  }

  lemma CreatedProcesses(first: State, s: State, p: ProcessName)
    requires Inv(first, s) && Drawn(s, p) && s.processes[p].phase.key !in s.redis.entries
    ensures CounterOk(WithCreated(s, p).redis.counter)
    ensures forall q :: Drawn(WithCreated(s, p), q) ==> DrawnOk(WithCreated(s, p), q)
    ensures forall q :: q in WithCreated(s, p).processes ==> ProcessOk(WithCreated(s, p), q)
  {
    var key, id := s.processes[p].phase.key, s.processes[p].phase.id;
    assert DrawnOk(s, p) && ProcessOk(s, p);
    OthersInv(first, s, WithCreated(s, p), p);
    WriterStaysOk(s, p, key, id);
  }

  lemma CreatedRedis(first: State, s: State, p: ProcessName)
    requires Inv(first, s) && Drawn(s, p) && s.processes[p].phase.key !in s.redis.entries
    ensures var s' := WithCreated(s, p);
            && EntriesOk(s'.redis)
            && (forall k :: k in first.redis.entries ==>
                  k in s'.redis.entries && s'.redis.entries[k] == first.redis.entries[k])
            && (forall k :: k in s'.redis.entries && k !in first.redis.entries ==> s'.redis.entries[k] > FIRST_COUNTER)
            && LogOk(first.redis.entries, s'.redis.entries, s'.log)
  {
    var key, id := s.processes[p].phase.key, s.processes[p].phase.id;
    assert DrawnOk(s, p);
    EntryInv(first, s, p);
    CreatedLog(first.redis.entries, s.redis.entries, s.log, Return(p, key, id, true, false));
  }

  // A process that has written its entry and returned keeps its promises.
  lemma WriterStaysOk(s: State, p: ProcessName, key: Key, id: nat)
    requires p in s.processes && ProcessOk(s, p) && key !in s.redis.entries
    ensures ProcessOk(Finish(s.(redis := s.redis.(entries := s.redis.entries[key := id])), p, key, id, true), p)
  {
  }

  lemma CreatedLog(old_: map<Key, nat>, entries: map<Key, nat>, log: seq<Return>, r: Return)
    requires LogOk(old_, entries, log) && r.created && !r.local && r.key !in entries
    requires forall k :: k in old_ ==> k in entries
    ensures LogOk(old_, entries[r.key := r.id], log + [r])
  {
    CountSnoc(log, r);
  }

  // Writing a drawn id under a new key keeps the ids distinct.
  lemma EntryInv(first: State, s: State, p: ProcessName)
    requires Inv(first, s) && Drawn(s, p) && s.processes[p].phase.key !in s.redis.entries
    ensures var Process(_, _, SetEntryIfAbsent(key, id)) := s.processes[p];
            EntriesOk(s.redis.(entries := s.redis.entries[key := id]))
  {
    assert DrawnOk(s, p);
  }

  lemma WriteCounterInv(first: State, s: State, p: ProcessName, key: Key, reply: Reply)
    requires Inv(first, s) && p in s.processes && reply.Executed()
    ensures Inv(first, WriteCounter(s, p, key, true, reply))
  {
    if s.redis.counter.Absent? {
      CounterSetInv(first, s);
      GoToInv(first, SetCounter(s, Number(FIRST_COUNTER)), p, Increment(key));
    } else {
      GoToInv(first, s, p, Increment(key));
    }
  }

  lemma IncrementInv(first: State, s: State, p: ProcessName, key: Key, reply: Reply)
    requires Inv(first, s) && p in s.processes && s.redis.counter.Number?
    requires reply.Answered? && Incremented(s.redis.counter).Some?
    ensures Inv(first, IncrementCounter(s, p, key, reply))
  {
    AnsweredIncrement(s, p, key);
    DrawInv(first, s, p, key);
  }

  lemma AnsweredIncrement(s: State, p: ProcessName, key: Key)
    requires p in s.processes && s.redis.counter.Number? && s.redis.counter.n < MAX_INT64
    ensures IncrementCounter(s, p, key, Answered) == WithDrawn(s, p, key)
  {
  }

  lemma WriteEntryInv(first: State, s: State, p: ProcessName, reply: Reply)
    requires Inv(first, s) && Drawn(s, p)
    requires reply.Answered?
    ensures Inv(first, WriteEntry(s, p, s.processes[p].phase.key, s.processes[p].phase.id, reply))
  {
    var key, id := s.processes[p].phase.key, s.processes[p].phase.id;
    if key in s.redis.entries {
      GoToInv(first, s, p, RetryGetEntry(key));
    } else {
      CreatedInv(first, s, p);
    }
  }

  lemma ReadEntryInv(first: State, s: State, p: ProcessName, key: Key, reply: Reply)
    requires Inv(first, s) && p in s.processes
    ensures Inv(first, ReadEntry(s, p, key, reply))
  {
    if reply.Answered? && key in s.redis.entries {
      FoundInv(first, s, p, key);
    } else {
      GoToInv(first, s, p, GetCounter(key));
    }
  }

  lemma ReadCounterInv(first: State, s: State, p: ProcessName, key: Key, reply: Reply)
    requires Inv(first, s) && p in s.processes
    ensures Inv(first, ReadCounterKey(s, p, key, reply))
  {
    if reply.Lost? || s.redis.counter.Absent? {
      GoToInv(first, s, p, SetCounterIfAbsent(key));
    } else {
      GoToInv(first, s, p, Increment(key));
    }
  }

  lemma NextInv(first: State, s: State, step: Step)
    requires Inv(first, s) && StepOk(s, step)
    ensures Inv(first, Next(s, step))
  {
    var p := step.process;
    if p in s.processes {
      assert ProcessOk(s, p);
      match step
      case Begin(_, key) => BeginInv(first, s, p, key);
      case Command(_, reply) =>
        match s.processes[p].phase
        case Idle =>
        case GetEntry(key) => ReadEntryInv(first, s, p, key, reply);
        case GetCounter(key) => ReadCounterInv(first, s, p, key, reply);
        case SetCounterIfAbsent(key) => WriteCounterInv(first, s, p, key, reply);
        case Increment(key) => IncrementInv(first, s, p, key, reply);
        case SetEntryIfAbsent(key, id) => WriteEntryInv(first, s, p, reply);
        case RetryGetEntry(key) => ReadEntryInv(first, s, p, key, reply);
    }
  }

  lemma {:induction false} RunInv(first: State, steps: seq<Step>)
    requires Start(first) && RunOk(first, steps)
    ensures Inv(first, Run(first, steps))
  {
    if steps == [] {
      StartInv(first);
    } else {
      RunInv(first, steps[..|steps| - 1]);
      NextInv(first, Run(first, steps[..|steps| - 1]), steps[|steps| - 1]);
    }
  }

  // ----- the main results, for every run -----

  // Over the whole run: distinct keys have distinct ids, new ids start at 100000, every cached id and
  // every returned id is the one Redis holds, and each new key was created by exactly one call.
  lemma IdsAreUnique(first: State, steps: seq<Step>)
    requires Start(first) && RunOk(first, steps)
    ensures var s := Run(first, steps);
            && (forall k, l :: k in s.redis.entries && l in s.redis.entries && k != l ==>
                  s.redis.entries[k] != s.redis.entries[l])
            && (forall k :: k in s.redis.entries && k !in first.redis.entries ==> s.redis.entries[k] >= 100000)
            && (forall p, k :: p in s.processes && k in s.processes[p].cache ==>
                  k in s.redis.entries && s.redis.entries[k] == s.processes[p].cache[k])
            && (forall i, j :: 0 <= i < |s.log| && 0 <= j < |s.log| ==>
                  (s.log[i].id == s.log[j].id <==> s.log[i].key == s.log[j].key))
            && (forall k :: k in s.redis.entries && k !in first.redis.entries ==> CreatedCount(s.log, k) == 1)
            && (forall k :: k !in s.redis.entries || k in first.redis.entries ==> CreatedCount(s.log, k) == 0)
  {
    RunInv(first, steps);
    var s := Run(first, steps);
    forall p, k | p in s.processes && k in s.processes[p].cache
      ensures k in s.redis.entries && s.redis.entries[k] == s.processes[p].cache[k]
    {
      assert ProcessOk(s, p);
    }
  }

  // A key that is known costs no id: a cached one is answered at once and without Redis, one that is found
  // in Redis by the first answered command, and neither changes Redis. Each call that returns leaves its key
  // cached with the id it returned, so the next one for the key returns the same.
  lemma KnownKeysAreReturned(s: State, p: ProcessName, key: Key)
    requires p in s.processes && s.processes[p].phase.Idle?
    ensures var begun := Next(s, Begin(p, key));
            var read := Next(begun, Command(p, Answered));
            && begun.redis == s.redis && read.redis == s.redis
            && (key in s.processes[p].cache ==>
                  begun == s.(log := s.log + [Return(p, key, s.processes[p].cache[key], false, false)]))
            && (key !in s.processes[p].cache && key in s.redis.entries ==>
                  && begun.log == s.log
                  && read.log == s.log + [Return(p, key, s.redis.entries[key], false, false)]
                  && read.processes[p].phase.Idle?
                  && read.processes[p].cache == s.processes[p].cache[key := s.redis.entries[key]])
            && (key !in s.processes[p].cache && key !in s.redis.entries ==>
                  begun.log == s.log && read.log == s.log && !read.processes[p].phase.Idle?)
  {
  }

  lemma ReturnsAreCached(s: State, step: Step)
    requires step.process in s.processes && |Next(s, step).log| > |s.log|
    ensures var r, me := Next(s, step).log[|s.log|], Next(s, step).processes[step.process];
            && r.process == step.process && |Next(s, step).log| == |s.log| + 1
            && me.phase.Idle? && r.key in me.cache && me.cache[r.key] == r.id
  {
  }

  // How many commands a call still needs once all replies come back.
  function Remaining(phase: Phase): (n: nat)
    ensures n <= 6
  {
    match phase
    case Idle => 0
    case RetryGetEntry(_) => 1
    case SetEntryIfAbsent(_, _) => 2
    case Increment(_) => 3
    case ResetCounter(_) => 4
    case SetCounterIfAbsent(_) => 4
    case GetCounter(_) => 5
    case GetEntry(_) => 6
  }

  // Every answered command brings its call nearer to the end, whatever the others do in between.
  lemma AnsweredCommandsFinish(first: State, steps: seq<Step>, p: ProcessName)
    requires Start(first) && RunOk(first, steps) && p in Run(first, steps).processes
    requires Run(first, steps).processes[p].phase != Idle
    ensures var s := Run(first, steps);
            var s' := Next(s, Command(p, Answered));
            p in s'.processes && Remaining(s'.processes[p].phase) < Remaining(s.processes[p].phase)
  {
    RunInv(first, steps);
    AnsweredCommandAdvances(first, Run(first, steps), p);
  }

  lemma AnsweredCommandAdvances(first: State, s: State, p: ProcessName)
    requires Inv(first, s) && p in s.processes && s.processes[p].phase != Idle
    ensures var s' := Next(s, Command(p, Answered));
            p in s'.processes && Remaining(s'.processes[p].phase) < Remaining(s.processes[p].phase)
  {
    assert ProcessOk(s, p);
  }

  lemma OthersDoNotMoveACall(s: State, step: Step, p: ProcessName)
    requires p in s.processes && step.process != p
    ensures p in Next(s, step).processes && Next(s, step).processes[p] == s.processes[p]
  {
  }

  // How many of the steps are commands of process p.
  function CommandsOf(steps: seq<Step>, p: ProcessName): nat {
    if steps == [] then 0
    else
      CommandsOf(steps[..|steps| - 1], p) +
      if steps[|steps| - 1].Command? && steps[|steps| - 1].process == p then 1 else 0
  }

  // The call of p is under way throughout the steps that follow before.
  ghost predicate BusyThroughout(first: State, before: seq<Step>, steps: seq<Step>, p: ProcessName) {
    forall n :: 0 <= n < |steps| ==> Busy(first, before + steps[..n], p)
  }

  lemma HeadOfRun(first: State, before: seq<Step>, head: seq<Step>, last: Step, p: ProcessName)
    requires RunOk(first, before + (head + [last])) && BusyThroughout(first, before, head + [last], p)
    ensures RunOk(first, before + head) && BusyThroughout(first, before, head, p) && Busy(first, before + head, p)
    ensures before + (head + [last]) == before + head + [last]
  {
    var steps, all := head + [last], before + (head + [last]);
    assert all == before + head + [last];
    assert all[..|all| - 1] == before + head;
    assert steps[..|head|] == head;
    forall n | 0 <= n < |head|
      ensures Busy(first, before + head[..n], p)
    {
      assert steps[..n] == head[..n];
    }
  }

  // The retry loop ends: with its replies answered, no call takes more than six commands, in any
  // interleaving with the other processes.
  lemma {:induction false} CallEndsWithinSix(first: State, before: seq<Step>, steps: seq<Step>, p: ProcessName)
    requires Start(first) && RunOk(first, before + steps) && p in first.processes
    requires BusyThroughout(first, before, steps, p)
    requires forall i :: 0 <= i < |steps| ==> AnsweredFor(steps[i], p)
    ensures CommandsOf(steps, p) + RemainingAfter(first, before + steps, p) <= RemainingAfter(first, before, p) <= 6
  {
    if steps == [] {
      assert before + steps == before;
    } else {
      var head, last := steps[..|steps| - 1], steps[|steps| - 1];
      assert steps == head + [last];
      HeadOfRun(first, before, head, last, p);
      CallEndsWithinSix(first, before, head, p);
      OneStepRemaining(first, before, head, last, p);
    }
  }

  lemma CommandsSnoc(steps: seq<Step>, step: Step, p: ProcessName)
    ensures CommandsOf(steps + [step], p) == CommandsOf(steps, p) + CommandsOf([step], p)
  {
    assert (steps + [step])[..|steps|] == steps;
    assert [step][..0] == [];
  }

  lemma RunStep(s: State, steps: seq<Step>, step: Step)
    ensures Run(s, steps + [step]) == Next(Run(s, steps), step)
  {
    assert (steps + [step])[..|steps|] == steps;
  }

  predicate AnsweredFor(step: Step, p: ProcessName) {
    step.Command? && step.process == p ==> step.reply.Answered?
  }

  predicate Busy(first: State, steps: seq<Step>, p: ProcessName) {
    p in Run(first, steps).processes && Run(first, steps).processes[p].phase != Idle
  }

  function RemainingAfter(first: State, steps: seq<Step>, p: ProcessName): nat {
    var s := Run(first, steps);
    if p in s.processes then Remaining(s.processes[p].phase) else 0
  }

  lemma OneStepRemaining(first: State, before: seq<Step>, head: seq<Step>, step: Step, p: ProcessName)
    requires Start(first) && RunOk(first, before + head) && Busy(first, before + head, p) && AnsweredFor(step, p)
    ensures CommandsOf(head + [step], p) + RemainingAfter(first, before + head + [step], p)
            <= CommandsOf(head, p) + RemainingAfter(first, before + head, p)
  {
    RunStep(first, before + head, step);
    CommandsSnoc(head, step, p);
    assert [step][..0] == [];
    if step.process != p {
      OthersDoNotMoveACall(Run(first, before + head), step, p);
    } else if step.Command? {
      AnsweredCommandsFinish(first, before + head, p);
    }
  }

  lemma {:induction false} RunAppend(s: State, a: seq<Step>, b: seq<Step>)
    ensures Run(s, a + b) == Run(Run(s, a), b)
  {
    if b == [] {
      assert a + b == a;
    } else {
      assert (a + b)[..|a + b| - 1] == a + b[..|b| - 1];
      RunAppend(s, a, b[..|b| - 1]);
    }
  }

  // ----- the conditions are needed -----

  lemma RunOne(s: State, step: Step)
    ensures Run(s, [step]) == Next(s, step)
  {
    assert [step][..0] == [];
  }

  lemma RunThree(s: State, x: Step, y: Step, z: Step)
    ensures Run(s, [x, y, z]) == Next(Next(Next(s, x), y), z)
  {
    RunOne(s, x);
    RunStep(s, [x], y);
    RunStep(s, [x] + [y], z);
    assert [x, y, z] == [x] + [y] + [z];
  }

  // Everything but process p is as it was.
  ghost predicate OthersKept(s: State, t: State, p: ProcessName) {
    forall q :: q != p && q in s.processes ==> q in t.processes && t.processes[q] == s.processes[q]
  }

  ghost predicate Fresh(s: State, p: ProcessName, key: Key) {
    p in s.processes && s.processes[p].phase == Idle && key !in s.processes[p].cache && key !in s.redis.entries
  }

  // A process that begins a call and reads the counter stands before its next write of the counter.
  lemma ReadCounter(s: State, p: ProcessName, key: Key)
    requires Fresh(s, p, key) && !s.redis.counter.Absent?
    ensures var t := Run(s, [Begin(p, key), Command(p, Answered), Command(p, Answered)]);
            && t.redis == s.redis && OthersKept(s, t, p) && p in t.processes
            && t.processes[p] == s.processes[p].(
                 phase := if NeedsReset(s.redis.counter) then ResetCounter(key) else Increment(key))
  {
    RunThree(s, Begin(p, key), Command(p, Answered), Command(p, Answered));
  }

  lemma LoseIncrement(s: State, p: ProcessName, key: Key)
    requires p in s.processes && s.processes[p].phase == Increment(key)
    ensures var t := Run(s, [Command(p, Lost(false))]);
            && t.redis == s.redis && OthersKept(s, t, p) && p in t.processes
            && key in t.processes[p].cache && t.processes[p].cache[key] == s.processes[p].nextLocalId
  {
    RunOne(s, Command(p, Lost(false)));
  }

  // Two processes that lose the reply to their increment hand out the same local id.
  lemma LostIncrementSharesAnId(s: State, p: ProcessName, q: ProcessName, a: Key, b: Key) returns (steps: seq<Step>)
    requires p != q && a != b && Fresh(s, p, a) && Fresh(s, q, b)
    requires s.processes[p].nextLocalId == s.processes[q].nextLocalId
    requires s.redis.counter.Number? && !NeedsReset(s.redis.counter)
    ensures var t := Run(s, steps);
            && p in t.processes && a in t.processes[p].cache
            && q in t.processes && b in t.processes[q].cache
            && t.processes[p].cache[a] == t.processes[q].cache[b]
  {
    var c, d := Command(p, Answered), Command(q, Answered);
    ReadCounter(s, p, a);
    steps := [Begin(p, a), c, c];
    LoseIncrement(Run(s, steps), p, a);
    RunAppend(s, steps, [Command(p, Lost(false))]);
    steps := steps + [Command(p, Lost(false))];
    ReadCounter(Run(s, steps), q, b);
    RunAppend(s, steps, [Begin(q, b), d, d]);
    steps := steps + [Begin(q, b), d, d];
    LoseIncrement(Run(s, steps), q, b);
    RunAppend(s, steps, [Command(q, Lost(false))]);
    steps := steps + [Command(q, Lost(false))];
  }
}
