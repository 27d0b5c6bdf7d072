// From which contents of Redis the directory never gives one id to two accounts, when every reply comes
// back: exactly the condition under which module DirectoryProtocol proves it, and for all other contents
// a run that shares an id.
module DirectoryStarts {
  import opened Common
  import opened DirectoryProtocol

  // Every process has just been constructed.
  ghost predicate Booted(s: State) {
    && s.log == []
    && (forall p :: p in s.processes ==> s.processes[p] == Process(map[], 100000, Idle))
  }

  // The increment of a counter that has no next 64-bit value.
  predicate Exhausts(s: State, step: Step) {
    && step.Command? && step.process in s.processes && s.processes[step.process].phase.Increment?
    && s.redis.counter.Number? && s.redis.counter.n >= MAX_INT64
  }

  predicate AnsweredStep(s: State, step: Step) {
    (step.Command? ==> step.reply.Answered?) && !Exhausts(s, step)
  }

  // A run in which every reply comes back and the counter does not run out.
  predicate AnsweredRun(s: State, steps: seq<Step>) {
    steps == [] ||
    (AnsweredRun(s, steps[..|steps| - 1]) && AnsweredStep(Run(s, steps[..|steps| - 1]), steps[|steps| - 1]))
  }

  // Two calls for different keys have returned one id.
  ghost predicate SharesAnId(log: seq<Return>) {
    exists i, j :: 0 <= i < |log| && 0 <= j < |log| && log[i].key != log[j].key && log[i].id == log[j].id
  }

  ghost predicate CanShare(s: State) {
    exists steps :: AnsweredRun(s, steps) && SharesAnId(Run(s, steps).log)
  }

  // ----- from good contents no run shares an id -----

  lemma AnsweredStepIsOk(first: State, s: State, step: Step)
    requires Inv(first, s) && AnsweredStep(s, step)
    ensures StepOk(s, step)
  {
    if step.process in s.processes {
      assert ProcessOk(s, step.process);
    }
  }

  lemma {:induction false} AnsweredRunIsOk(first: State, steps: seq<Step>)
    requires Start(first) && AnsweredRun(first, steps)
    ensures RunOk(first, steps)
  {
    if steps != [] {
      var before := steps[..|steps| - 1];
      AnsweredRunIsOk(first, before);
      RunInv(first, before);
      AnsweredStepIsOk(first, Run(first, before), steps[|steps| - 1]);
    }
  }

  lemma GoodContentsNeverShare(first: State)
    requires Booted(first) && EntriesOk(first.redis)
    ensures !CanShare(first)
  {
    forall steps | AnsweredRun(first, steps)
      ensures !SharesAnId(Run(first, steps).log)
    {
      AnsweredRunIsOk(first, steps);
      IdsAreUnique(first, steps);
    }
  }

  // ----- putting runs together -----

  ghost predicate Reaches(s: State, t: State) {
    exists steps :: AnsweredRun(s, steps) && Run(s, steps) == t
  }

  lemma ReachesItself(s: State)
    ensures Reaches(s, s)
  {
    assert AnsweredRun(s, []) && Run(s, []) == s;
  }

  lemma ReachNext(s: State, t: State, step: Step)
    requires Reaches(s, t) && AnsweredStep(t, step)
    ensures Reaches(s, Next(t, step))
  {
    var steps :| AnsweredRun(s, steps) && Run(s, steps) == t;
    assert (steps + [step])[..|steps|] == steps;
    assert AnsweredRun(s, steps + [step]) && Run(s, steps + [step]) == Next(t, step);
  }

  // An answered command of process p leads from t to u.
  predicate Moves(t: State, p: ProcessName, u: State) {
    !Exhausts(t, Command(p, Answered)) && Next(t, Command(p, Answered)) == u
  }

  lemma ReachMove(s: State, t: State, p: ProcessName, u: State)
    requires Reaches(s, t) && Moves(t, p, u)
    ensures Reaches(s, u)
  {
    ReachNext(s, t, Command(p, Answered));
  }

  // ----- the commands of one call -----

  lemma EntryFound(t: State, p: ProcessName, key: Key)
    requires p in t.processes && key in t.redis.entries
    ensures Moves(GoTo(t, p, GetEntry(key)), p, Finish(t, p, key, t.redis.entries[key], false))
  {
  }

  lemma EntryMissing(t: State, p: ProcessName, key: Key)
    requires p in t.processes && key !in t.redis.entries
    ensures Moves(GoTo(t, p, GetEntry(key)), p, GoTo(t, p, GetCounter(key)))
  {
  }

  // Where a process goes that has read the counter.
  function PastCounter(c: Counter, key: Key): Phase {
    if c.Absent? then SetCounterIfAbsent(key) else if NeedsReset(c) then ResetCounter(key) else Increment(key)
  }

  lemma CounterRead(t: State, p: ProcessName, key: Key)
    requires p in t.processes
    ensures Moves(GoTo(t, p, GetCounter(key)), p, GoTo(t, p, PastCounter(t.redis.counter, key)))
  {
  }

  lemma CounterWritten(t: State, p: ProcessName, phase: Phase, key: Key)
    requires p in t.processes
    requires phase == ResetCounter(key) || (phase == SetCounterIfAbsent(key) && t.redis.counter.Absent?)
    ensures Moves(GoTo(t, p, phase), p, GoTo(SetCounter(t, Number(FIRST_COUNTER)), p, Increment(key)))
  {
  }

  lemma IdDrawn(t: State, p: ProcessName, key: Key, n: int)
    requires p in t.processes && t.redis.counter == Number(n) && 0 <= n < MAX_INT64
    ensures Moves(GoTo(t, p, Increment(key)), p, GoTo(SetCounter(t, Number(n + 1)), p, SetEntryIfAbsent(key, n + 1)))
  {
    assert AsUint64(n + 1) == n + 1;
  }

  lemma TextRefused(t: State, p: ProcessName, key: Key)
    requires p in t.processes && t.redis.counter.Text?
    ensures Moves(GoTo(t, p, Increment(key)), p, FallBack(t, p, key))
  {
  }

  // The state after the increment to n and the write of the entry.
  function Created(t: State, p: ProcessName, key: Key, n: int): State
    requires p in t.processes && n >= 0
  {
    Finish(t.(redis := Redis(Number(n), t.redis.entries[key := n])), p, key, n, true)
  }

  lemma EntryWritten(t: State, p: ProcessName, key: Key, n: int)
    requires p in t.processes && key !in t.redis.entries && n >= 0
    ensures Moves(GoTo(SetCounter(t, Number(n)), p, SetEntryIfAbsent(key, n)), p, Created(t, p, key, n))
  {
  }

  // ----- whole calls -----

  ghost predicate IdleWithout(s: State, p: ProcessName, key: Key) {
    p in s.processes && s.processes[p].phase == Idle && key !in s.processes[p].cache
  }

  lemma ReachGetEntry(s: State, t: State, p: ProcessName, key: Key)
    requires Reaches(s, t) && IdleWithout(t, p, key)
    ensures Reaches(s, GoTo(t, p, GetEntry(key)))
  {
    ReachNext(s, t, Begin(p, key));
  }

  // A call for a key that has an entry.
  lemma ReachFound(s: State, t: State, p: ProcessName, key: Key)
    requires Reaches(s, t) && IdleWithout(t, p, key) && key in t.redis.entries
    ensures Reaches(s, Finish(t, p, key, t.redis.entries[key], false))
  {
    ReachGetEntry(s, t, p, key);
    EntryFound(t, p, key);
    ReachMove(s, GoTo(t, p, GetEntry(key)), p, Finish(t, p, key, t.redis.entries[key], false));
  }

  // A call for a key without an entry, past the counter.
  lemma ReachPastCounter(s: State, t: State, p: ProcessName, key: Key)
    requires Reaches(s, t) && IdleWithout(t, p, key) && key !in t.redis.entries
    ensures Reaches(s, GoTo(t, p, PastCounter(t.redis.counter, key)))
  {
    ReachGetEntry(s, t, p, key);
    EntryMissing(t, p, key);
    ReachMove(s, GoTo(t, p, GetEntry(key)), p, GoTo(t, p, GetCounter(key)));
    CounterRead(t, p, key);
    ReachMove(s, GoTo(t, p, GetCounter(key)), p, GoTo(t, p, PastCounter(t.redis.counter, key)));
  }

  lemma ReachCreatedFromIncrement(s: State, t: State, p: ProcessName, key: Key, n: int)
    requires p in t.processes && key !in t.redis.entries && t.redis.counter == Number(n) && 0 <= n < MAX_INT64
    requires Reaches(s, GoTo(t, p, Increment(key)))
    ensures Reaches(s, Created(t, p, key, n + 1))
  {
    var drawn := GoTo(SetCounter(t, Number(n + 1)), p, SetEntryIfAbsent(key, n + 1));
    IdDrawn(t, p, key, n);
    ReachMove(s, GoTo(t, p, Increment(key)), p, drawn);
    EntryWritten(t, p, key, n + 1);
    ReachMove(s, drawn, p, Created(t, p, key, n + 1));
  }

  // From a write of the first counter value on, whatever the counter was.
  lemma ReachCreatedFromWrite(s: State, t: State, p: ProcessName, key: Key, phase: Phase)
    requires p in t.processes && key !in t.redis.entries && Reaches(s, GoTo(t, p, phase))
    requires phase == ResetCounter(key) || (phase == SetCounterIfAbsent(key) && t.redis.counter.Absent?)
    ensures Reaches(s, Created(t, p, key, FIRST_COUNTER + 1))
  {
    var written := SetCounter(t, Number(FIRST_COUNTER));
    CounterWritten(t, p, phase, key);
    ReachMove(s, GoTo(t, p, phase), p, GoTo(written, p, Increment(key)));
    ReachCreatedFromIncrement(s, written, p, key, FIRST_COUNTER);
    assert Created(written, p, key, FIRST_COUNTER + 1) == Created(t, p, key, FIRST_COUNTER + 1);
  }

  // A whole call that creates an entry from a good counter.
  lemma ReachCreated(s: State, t: State, p: ProcessName, key: Key)
    requires Reaches(s, t) && IdleWithout(t, p, key) && key !in t.redis.entries
    requires CounterOk(t.redis.counter) && CounterValue(t.redis.counter) < MAX_INT64
    ensures Reaches(s, Created(t, p, key, CounterValue(t.redis.counter) + 1))
  {
    if t.redis.counter.Absent? {
      ReachCreatedFirst(s, t, p, key);
    } else {
      ReachPastCounter(s, t, p, key);
      ReachCreatedFromIncrement(s, t, p, key, t.redis.counter.n);
    }
  }

  lemma ReachCreatedFirst(s: State, t: State, p: ProcessName, key: Key)
    requires Reaches(s, t) && IdleWithout(t, p, key) && key !in t.redis.entries && t.redis.counter.Absent?
    ensures Reaches(s, Created(t, p, key, FIRST_COUNTER + 1))
  {
    ReachPastCounter(s, t, p, key);
    ReachCreatedFromWrite(s, t, p, key, SetCounterIfAbsent(key));
  }

  // A whole call for a new key when the counter is a text that INCRBY refuses.
  lemma ReachLocal(s: State, t: State, p: ProcessName, key: Key)
    requires Reaches(s, t) && IdleWithout(t, p, key) && key !in t.redis.entries
    requires t.redis.counter.Text? && !NeedsReset(t.redis.counter)
    ensures Reaches(s, FallBack(t, p, key))
  {
    ReachPastCounter(s, t, p, key);
    TextRefused(t, p, key);
    ReachMove(s, GoTo(t, p, Increment(key)), p, FallBack(t, p, key));
  }

  // ----- keys nobody has used -----

  lemma LongerThanAll(used: set<Key>) returns (n: nat)
    ensures forall k :: k in used ==> |k| < n
  {
    n := 0;
    if used != {} {
      var k :| k in used;
      var m := LongerThanAll(used - {k});
      n := if m <= |k| then |k| + 1 else m;
    }
  }

  lemma UnusedKey(used: set<Key>) returns (key: Key)
    ensures key !in used
  {
    var n := LongerThanAll(used);
    key := seq(n, _ => 'k');
  }

  // ----- from all other contents some run shares an id -----

  lemma Shared(s: State, t: State, i: nat, j: nat)
    requires Reaches(s, t) && i < |t.log| && j < |t.log|
    requires t.log[i].key != t.log[j].key && t.log[i].id == t.log[j].id
    ensures CanShare(s)
  {
    var steps :| AnsweredRun(s, steps) && Run(s, steps) == t;
    assert SharesAnId(Run(s, steps).log);
  }

  // Two entries with one id: looking both up is enough.
  lemma SharedEntries(first: State, p: ProcessName, k: Key, l: Key)
    requires Booted(first) && p in first.processes && k != l
    requires k in first.redis.entries && l in first.redis.entries && first.redis.entries[k] == first.redis.entries[l]
    ensures CanShare(first)
  {
    ReachesItself(first);
    ReachFound(first, first, p, k);
    var s := Finish(first, p, k, first.redis.entries[k], false);
    ReachFound(first, s, p, l);
    Shared(first, Finish(s, p, l, s.redis.entries[l], false), 0, 1);
  }

  // A counter that counts into the id of an old entry: new keys are created until it gets there.
  lemma CountsIntoAnEntry(first: State, s: State, p: ProcessName, k: Key)
    requires Reaches(first, s) && IdleWithout(s, p, k) && k in s.redis.entries && CounterOk(s.redis.counter)
    requires CounterValue(s.redis.counter) < s.redis.entries[k] <= MAX_INT64
    ensures CanShare(first)
    decreases s.redis.entries[k] - CounterValue(s.redis.counter)
  {
    var n := CounterValue(s.redis.counter) + 1;
    var key := UnusedKey(s.redis.entries.Keys + s.processes[p].cache.Keys);
    ReachCreated(first, s, p, key);
    var t := Created(s, p, key, n);
    if n == s.redis.entries[k] {
      ReachFound(first, t, p, k);
      Shared(first, Finish(t, p, k, n, false), |s.log|, |s.log| + 1);
    } else {
      CountsIntoAnEntry(first, t, p, k);
    }
  }

  // A text that is not reset sends every process to its own counter, and those start alike.
  lemma TextGivesLocalIds(first: State, p: ProcessName, q: ProcessName)
    requires Booted(first) && p != q && p in first.processes && q in first.processes
    requires first.redis.counter.Text? && !NeedsReset(first.redis.counter)
    ensures CanShare(first)
  {
    var a := UnusedKey(first.redis.entries.Keys);
    var b := UnusedKey(first.redis.entries.Keys + {a});
    ReachesItself(first);
    ReachLocal(first, first, p, a);
    var s := FallBack(first, p, a);
    ReachLocal(first, s, q, b);
    Shared(first, FallBack(s, q, b), 0, 1);
  }

  // One run has given both keys the same id, in Redis and in what its calls returned.
  ghost predicate GivesOneId(s: State, a: Key, b: Key) {
    exists steps :: AnsweredRun(s, steps) && SharesAnId(Run(s, steps).log) && SameEntries(Run(s, steps).redis, a, b)
  }

  ghost predicate SameEntries(r: Redis, k: Key, l: Key) {
    k != l && k in r.entries && l in r.entries && r.entries[k] == r.entries[l]
  }

  // At any moment at which the counter is below its first value, two idle processes can reset it one
  // after the other and hand the same id to any two new accounts.
  lemma LowCounterSharesAnId(s: State, p: ProcessName, q: ProcessName, a: Key, b: Key)
    requires p != q && a != b && IdleWithout(s, p, a) && IdleWithout(s, q, b)
    requires a !in s.redis.entries && b !in s.redis.entries && NeedsReset(s.redis.counter)
    ensures GivesOneId(s, a, b)
  {
    ReachesItself(s);
    ReachPastCounter(s, s, p, a);
    ReachPastCounter(s, GoTo(s, p, ResetCounter(a)), q, b);
    BothAtReset(s, p, q, a, b);
    ReachCreatedFromWrite(s, GoTo(s, q, ResetCounter(b)), p, a, ResetCounter(a));
    var t := Created(s, p, a, FIRST_COUNTER + 1);
    ReachCreatedFromWrite(s, t, q, b, ResetCounter(b));
    SharedByBoth(s, Created(t, q, b, FIRST_COUNTER + 1), a, b, |s.log|);
  }

  lemma SharedByBoth(s: State, t: State, a: Key, b: Key, i: nat)
    requires Reaches(s, t) && i + 1 < |t.log| && SameEntries(t.redis, a, b)
    requires t.log[i].key != t.log[i + 1].key && t.log[i].id == t.log[i + 1].id
    ensures GivesOneId(s, a, b)
  {
    var steps :| AnsweredRun(s, steps) && Run(s, steps) == t;
    assert SharesAnId(Run(s, steps).log);
  }

  // The phases of two processes can be set in either order.
  lemma BothAtReset(s: State, p: ProcessName, q: ProcessName, a: Key, b: Key)
    requires p != q && p in s.processes && q in s.processes
    ensures GoTo(GoTo(s, p, ResetCounter(a)), q, ResetCounter(b)) ==
            GoTo(GoTo(s, q, ResetCounter(b)), p, ResetCounter(a))
    ensures Created(GoTo(s, q, ResetCounter(b)), p, a, FIRST_COUNTER + 1) ==
            GoTo(Created(s, p, a, FIRST_COUNTER + 1), q, ResetCounter(b))
  {
  }

  // ----- the condition -----

  ghost predicate CountsInto(r: Redis, k: Key)
    requires CounterOk(r.counter)
  {
    k in r.entries && CounterValue(r.counter) < r.entries[k] <= MAX_INT64
  }

  // What can be wrong about the entries behind a good counter.
  lemma BadEntries(r: Redis)
    requires CounterOk(r.counter) && !EntriesOk(r)
    ensures (exists k :: CountsInto(r, k)) || (exists k, l :: SameEntries(r, k, l))
  {
    if forall k :: !CountsInto(r, k) {
      assert forall k :: k in r.entries ==> !CountsInto(r, k);
      var k, l :| k in r.entries && l in r.entries && r.entries[k] == r.entries[l] && k != l;
      assert SameEntries(r, k, l);
    }
  }

  lemma BadContentsShare(first: State, p: ProcessName, q: ProcessName)
    requires Booted(first) && p != q && p in first.processes && q in first.processes
    requires first.redis.counter.Number? ==> first.redis.counter.n <= MAX_INT64
    requires !EntriesOk(first.redis)
    ensures CanShare(first)
  {
    var r := first.redis;
    if NeedsReset(r.counter) {
      var a := UnusedKey(r.entries.Keys);
      var b := UnusedKey(r.entries.Keys + {a});
      LowCounterSharesAnId(first, p, q, a, b);
    } else if r.counter.Text? {
      TextGivesLocalIds(first, p, q);
    } else {
      BadEntries(r);
      if k :| CountsInto(r, k) {
        ReachesItself(first);
        CountsIntoAnEntry(first, first, p, k);
      } else {
        var k, l :| SameEntries(r, k, l);
        SharedEntries(first, p, k, l);
      }
    }
  }

  // With at least two processes, and every reply coming back: some run shares an id if and only if it is
  // not the case that the counter is absent or a number of at least 99999, the ids of the entries are
  // distinct, and each is one that the counter has passed or can never reach.
  lemma UniqueExactlyFromGoodContents(first: State, p: ProcessName, q: ProcessName)
    requires Booted(first) && p != q && p in first.processes && q in first.processes
    requires first.redis.counter.Number? ==> first.redis.counter.n <= MAX_INT64
    ensures CanShare(first) <==> !EntriesOk(first.redis)
  {
    if EntriesOk(first.redis) {
      GoodContentsNeverShare(first);
    } else {
      BadContentsShare(first, p, q);
    }
  }
}
