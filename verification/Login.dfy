// A login from end to end: the directory resolves the account, and its answer "created" is what allows
// the repository to start a player from default data while the table cannot be read. Here: the
// directory protocol and the player dataset as one system, and the service that joins them.
module Login {
  import opened Common
  import opened Storage
  import opened PlayerView
  import TextForms
  import Leases
  import D = DirectoryProtocol
  import Directory = DirectoryService
  import Sessions = SessionService

  // ----- the system: all processes' directory calls, and all accesses to the player dataset -----

  type Store = map<PlayerId, Cell<Blob>>

  const EMPTY_CELL: Cell<Blob> := Cell(None, None)

  function CellOf(store: Store, id: PlayerId): Cell<Blob> {
    if id in store then store[id] else EMPTY_CELL
  }

  // everStored are the ids the table has ever had an entry for.
  datatype System = System(directory: D.State, store: Store, everStored: set<PlayerId>)

  datatype Event =
    | DirectoryStep(step: D.Step)
    | Access(id: PlayerId, command: Command<Blob>, w: Weather)

  function Next(s: System, e: Event): System {
    match e
    case DirectoryStep(step) => s.(directory := D.Next(s.directory, step))
    case Access(id, command, w) =>
      var (cell, _) := Apply(CellOf(s.store, id), command, w);
      s.(store := s.store[id := cell], everStored := if cell.table.Some? then s.everStored + {id} else s.everStored)
  }

  // Some call has returned the id.
  ghost predicate Issued(log: seq<D.Return>, id: PlayerId) {
    exists i :: 0 <= i < |log| && log[i].id == id
  }

  // The conditions on a run: those of the directory, only ids that the directory has returned are
  // stored, and no access reports that Maria succeeded and Redis failed.
  ghost predicate EventOk(s: System, e: Event) {
    match e
    case DirectoryStep(step) => D.StepOk(s.directory, step)
    case Access(id, command, w) =>
      && (command.Put? ==> Issued(s.directory.log, id))
      && !Apply(CellOf(s.store, id), command, w).1.OkRedisFailed?
  }

  function Run(s: System, events: seq<Event>): System {
    if events == [] then s else Next(Run(s, events[..|events| - 1]), events[|events| - 1])
  }

  ghost predicate RunOk(s: System, events: seq<Event>) {
    events == [] || (RunOk(s, events[..|events| - 1]) && EventOk(Run(s, events[..|events| - 1]), events[|events| - 1]))
  }

  ghost predicate HasEntry(r: D.Redis, id: PlayerId) {
    id in r.entries.Values
  }

  ghost predicate Start(s: System) {
    && D.Start(s.directory)
    && (forall id :: id in s.everStored || CellOf(s.store, id) != EMPTY_CELL ==> HasEntry(s.directory.redis, id))
    && (forall id :: CellOf(s.store, id).table.Some? ==> id in s.everStored)
    && (forall id :: Coherent(CellOf(s.store, id)))
  }

  // What every run keeps of the dataset: ids without a directory entry have never been stored, the
  // cache agrees with the table, and it is complete for the ids that are new in this run.
  ghost predicate StoreOk(first: System, s: System) {
    && (forall id :: id in s.everStored || CellOf(s.store, id) != EMPTY_CELL ==> HasEntry(s.directory.redis, id))
    && (forall id :: CellOf(s.store, id).table.Some? ==> id in s.everStored)
    && (forall id :: Coherent(CellOf(s.store, id)))
    && (forall id :: !HasEntry(first.directory.redis, id) ==> CellOf(s.store, id).cached == CellOf(s.store, id).table)
  }

  ghost predicate Inv(first: System, s: System) {
    D.Inv(first.directory, s.directory) && StoreOk(first, s)
  }

  // One access that is not partial, to one entry.
  lemma AccessOne(c: Cell<Blob>, command: Command<Blob>, w: Weather)
    requires Coherent(c) && !Apply(c, command, w).1.OkRedisFailed?
    ensures var c' := Apply(c, command, w).0;
            && Coherent(c')
            && (c.cached == c.table ==> c'.cached == c'.table)
            && (c == EMPTY_CELL && !command.Put? ==> c' == EMPTY_CELL)
  {
  }

  lemma AccessInv(first: System, s: System, id: PlayerId, command: Command<Blob>, w: Weather)
    requires Inv(first, s) && EventOk(s, Access(id, command, w))
    ensures Inv(first, Next(s, Access(id, command, w)))
  {
    var cell := Apply(CellOf(s.store, id), command, w).0;
    AccessOne(CellOf(s.store, id), command, w);
    if command.Put? {
      var i :| 0 <= i < |s.directory.log| && s.directory.log[i].id == id;
      assert s.directory.log[i].key in s.directory.redis.entries;
    }
    AccessStoreOk(first, s, id, command.Put?, cell);
  }

  lemma AccessStoreOk(first: System, s: System, id: PlayerId, put: bool, cell: Cell<Blob>)
    requires StoreOk(first, s) && Coherent(cell)
    requires CellOf(s.store, id).cached == CellOf(s.store, id).table ==> cell.cached == cell.table
    requires put ==> HasEntry(s.directory.redis, id)
    requires !put && CellOf(s.store, id) == EMPTY_CELL ==> cell == EMPTY_CELL
    ensures StoreOk(first, s.(store := s.store[id := cell],
                              everStored := if cell.table.Some? then s.everStored + {id} else s.everStored))
  {
    var store := s.store[id := cell];
    assert forall other :: CellOf(store, other) == if other == id then cell else CellOf(s.store, other);
  }

  lemma DirectoryInv(first: System, s: System, step: D.Step)
    requires Inv(first, s) && EventOk(s, DirectoryStep(step))
    ensures Inv(first, Next(s, DirectoryStep(step)))
  {
    D.NextInv(first.directory, s.directory, step);
    Directory.StepGrowsRedis(first.directory, s.directory, step);
    EntriesStay(s.directory.redis.entries, D.Next(s.directory, step).redis.entries);
  }

  lemma EntriesStay(before: map<D.Key, nat>, after: map<D.Key, nat>)
    requires forall k :: k in before ==> k in after && after[k] == before[k]
    ensures forall id :: id in before.Values ==> id in after.Values
  {
    forall id | id in before.Values
      ensures id in after.Values
    {
      var k :| k in before && before[k] == id;
      assert k in after && after[k] == id;
    }
  }

  lemma {:induction false} RunInv(first: System, events: seq<Event>)
    requires Start(first) && RunOk(first, events)
    ensures Inv(first, Run(first, events))
  {
    if events == [] {
      D.StartInv(first.directory);
      forall id | !HasEntry(first.directory.redis, id)
        ensures CellOf(first.store, id).cached == CellOf(first.store, id).table
      {
        assert CellOf(first.store, id) == EMPTY_CELL;
      }
    } else {
      var before, e := events[..|events| - 1], events[|events| - 1];
      RunInv(first, before);
      match e
      case DirectoryStep(step) => DirectoryInv(first, Run(first, before), step);
      case Access(id, command, w) => AccessInv(first, Run(first, before), id, command, w);
    }
  }

  // ----- the main results, for every run -----

  // When a directory call returns created, its id has never been stored.
  lemma CreatedIdWasNeverStored(first: System, events: seq<Event>, step: D.Step)
    requires Start(first) && RunOk(first, events) && D.StepOk(Run(first, events).directory, step)
    requires var log, log' := Run(first, events).directory.log, D.Next(Run(first, events).directory, step).log;
             |log'| == |log| + 1 && log'[|log|].created
    ensures var s := Run(first, events);
            var id := D.Next(s.directory, step).log[|s.directory.log|].id;
            id !in s.everStored && CellOf(s.store, id) == EMPTY_CELL
  {
    RunInv(first, events);
    var s := Run(first, events);
    var d, p := s.directory, step.process;
    CreatedMeansDrawn(first.directory, d, step);
    var id := d.processes[p].phase.id;
    assert D.DrawnOk(d, p);
    assert !HasEntry(d.redis, id);
  }

  // Only the write of a drawn id returns created.
  lemma CreatedMeansDrawn(first: D.State, d: D.State, step: D.Step)
    requires D.Inv(first, d) && D.StepOk(d, step)
    requires var log' := D.Next(d, step).log;
             |log'| == |d.log| + 1 && log'[|d.log|].created
    ensures D.Drawn(d, step.process) && D.Next(d, step).log[|d.log|].id == d.processes[step.process].phase.id
  {
    var r := D.Next(d, step).log[|d.log|];
    assert !r.local;
    assert D.ProcessOk(d, step.process);
  }

  // An id some call of this run has created is not among the first entries.
  lemma CreatedIsNew(first: D.State, d: D.State, i: nat)
    requires D.Inv(first, d) && i < |d.log| && d.log[i].created
    ensures !HasEntry(first.redis, d.log[i].id)
  {
    CountsEach(d.log, i);
    var key := d.log[i].key;
    assert key !in first.redis.entries;
    forall k | k in first.redis.entries
      ensures first.redis.entries[k] != d.log[i].id
    {
      assert k in d.redis.entries && k != key;
    }
  }

  lemma {:induction false} CountsEach(log: seq<D.Return>, i: nat)
    requires i < |log| && log[i].created
    ensures D.CreatedCount(log, log[i].key) >= 1
  {
    if i < |log| - 1 {
      CountsEach(log[..|log| - 1], i);
    }
  }

  // The permission a login gives to its load: a call created the id.
  ghost predicate Created(log: seq<D.Return>, id: PlayerId) {
    exists i :: 0 <= i < |log| && log[i].id == id && log[i].created
  }

  // Exactly when a load yields the right data, for every entry, whatever the cache says: cached data are
  // taken as they are; without them the table is read, unless Maria is away and the load starts over.
  predicate LoadsRight(id: PlayerId, cell: Cell<Blob>, now: nat, w: Weather) {
    var right := if cell.table.Some? then cell.table.value else Encoded(DefaultData(id, now));
    if cell.cached.Some? then cell.cached.value == right
    else w.mariaUp || right == Encoded(DefaultData(id, now))
  }

  lemma LoadIsRightExactly(id: PlayerId, record: Option<Record>, cell: Cell<Blob>, allowCreate: bool, now: nat,
                           w: Weather, junk: PlayerData)
    ensures var (loaded, cell', result) := Load(id, record, cell, allowCreate, now, w, junk);
            && cell'.table == cell.table
            && (result.Success? ==>
                  ((if cell.table.Some? then cell.table == Some(Encoded(loaded.data))
                    else loaded.data == DefaultData(id, now))
                   <==> LoadsRight(id, cell, now, w)))
  {
  }

  // However long after the directory's answer the load happens, with the servers in whatever state: a
  // load that succeeds yields the stored data when there is any and default data only when there is
  // none, also where default data is allowed without Maria.
  lemma LoginNeverReplacesStoredData(first: System, events: seq<Event>, id: PlayerId, record: Option<Record>,
                                     allowCreate: bool, now: nat, w: Weather, junk: PlayerData)
    requires Start(first) && RunOk(first, events)
    requires allowCreate ==> Created(Run(first, events).directory.log, id)
    ensures var cell := CellOf(Run(first, events).store, id);
            var (loaded, cell', result) := Load(id, record, cell, allowCreate, now, w, junk);
            && (result.Success? ==>
                  if cell.table.Some? then cell.table == Some(Encoded(loaded.data))
                  else loaded.data == DefaultData(id, now))
            && cell'.table == cell.table
  {
    RunInv(first, events);
    var s := Run(first, events);
    var cell := CellOf(s.store, id);
    assert Coherent(cell);
    if allowCreate {
      var i :| 0 <= i < |s.directory.log| && s.directory.log[i].id == id && s.directory.log[i].created;
      CreatedIsNew(first.directory, s.directory, i);
      assert cell.cached == cell.table;
    }
    LoadIsRightExactly(id, record, cell, allowCreate, now, w, junk);
  }

  // The condition on accesses is needed: a put that reaches Maria and not Redis leaves an entry that a
  // permitted load answers with default data as soon as Maria is away.
  lemma PartialPutIsForgotten(id: PlayerId, data: PlayerData, now: nat, junk: PlayerData)
    returns (w: Weather, w': Weather)
    requires data != DefaultData(id, now)
    ensures var (cell, status) := PutCell(EMPTY_CELL, Encoded(data), w);
            && status.OkRedisFailed? && cell.table == Some(Encoded(data))
            && var (loaded, _, result) := Load(id, None, cell, true, now, w', junk);
               result.Success? && loaded.createdWithoutMaria && cell.table != Some(Encoded(loaded.data))
  {
    w := Weather(true, true, true, true, true, Answered, Lost(false));
    w' := w.(mariaUp := false);
  }

  // ----- the service -----

  datatype ResultCode = Ok | PlayerHeldByOtherGame | Internal

  function ToResultCode(result: Result): ResultCode {
    match result
    case Success => ResultCode.Ok
    case Failure(message) => if message == Leases.HELD_ELSEWHERE then PlayerHeldByOtherGame else Internal
  }

  datatype Response = Response(playerId: PlayerId, code: ResultCode, error: string)

  function ResponseFor(id: PlayerId, result: Result): Response {
    Response(id, ToResultCode(result), if result.Failure? then result.message else "")
  }

  // What a player is told: ok exactly if he is online through the gate, held elsewhere exactly if the lease
  // was asked for and another game has it, and otherwise the text of the failure.
  lemma ResponseTells(h: Host, v: View, p: PlayerId, gate: Gate, allowCreate: bool, e: Env)
    ensures var (v', result) := Activate(h, v, p, gate, allowCreate, e);
            var r := ResponseFor(p, result);
            && r.playerId == p
            && (r.code.Ok? <==> result.Success?)
            && (r.code.Ok? ==> r.error == "" && v'.session.Some? && v'.session.value.state.Online? &&
                               v'.session.value.gate == gate)
            && (r.code.PlayerHeldByOtherGame? <==> AsksForLease(v) && e.lease == Failure(Leases.HELD_ELSEWHERE))
            && (r.code.Internal? ==> result == Failure(r.error))
  {
    MessagesDiffer();
    LoadMessages(p, v.record, v.cell, allowCreate, e.now, e.w, e.junk);
  }

  // No failure of an activation but that of the lease has this text.
  lemma MessagesDiffer()
    ensures TRANSITIONING != Failure(Leases.HELD_ELSEWHERE) && NO_SELF != Failure(Leases.HELD_ELSEWHERE)
    ensures OTHER_OWNER != Failure(Leases.HELD_ELSEWHERE)
    ensures Failure("player repository is not loaded") != Failure(Leases.HELD_ELSEWHERE)
    ensures CORRUPTED != Failure(Leases.HELD_ELSEWHERE) && LOAD_FAILED != Failure(Leases.HELD_ELSEWHERE)
  {
    var held := Leases.HELD_ELSEWHERE;
    assert held[7] == 'l' && held[8] == 'e';
    assert TRANSITIONING.message[7] == 'i' && NO_SELF.message[7] == 's' && OTHER_OWNER.message[7] == 'r';
    assert "player repository is not loaded"[7] == 'r';
    assert CORRUPTED.message[7] == 'p' && LOAD_FAILED.message[7] == 'd';
  }

  lemma LoadMessages(p: PlayerId, record: Option<Record>, cell: Cell<Blob>, allowCreate: bool, now: nat, w: Weather,
                     junk: PlayerData)
    ensures var result := Load(p, record, cell, allowCreate, now, w, junk).2;
            result.Success? || result == CORRUPTED || result == LOAD_FAILED
  {
  }

  class PlayerLoginService {
    const directory: Directory.PlayerDirectoryService
    const session: Sessions.PlayerSessionService

    constructor (directory: Directory.PlayerDirectoryService, session: Sessions.PlayerSessionService)
      ensures this.directory == directory && this.session == session
    {
      this.directory, this.session := directory, session;
    }

    // The login activates the id the directory gives, and hands on its created as the permission to
    // create default data. sent is what became of sending the response.
    method HandleLoginRequest(account: TextForms.Account, gate: Gate, o: Sessions.Outside, sent: Result)
      returns (response: Response, dispatch: Result, ghost created: bool, ghost granted: Result,
               ghost activated: Result, ghost local: bool)
      requires session.Wired()
      modifies directory`entries, directory`nextPlayerId, directory.storage
      modifies session`players, session.repository`players, session.repository.storage`redis, session.runtime`players,
               session.ipc`host, session.ipc`directory, session.lease`leases, session.lease`counters,
               session.lease.redis`keys
      ensures dispatch == sent && response == ResponseFor(response.playerId, activated)
      ensures directory.entries == old(directory.entries)[TextForms.DirectoryKey(account) := response.playerId]
      ensures TextForms.DirectoryKey(account) in old(directory.entries) ==> !created
      ensures directory.storage != null ==>
        Directory.Resolved(old(directory.storage.redis), directory.storage.redis,
                           directory.storage.losses == old(directory.storage.losses),
                           TextForms.DirectoryKey(account), response.playerId, created, local)
      ensures directory.storage == null && TextForms.DirectoryKey(account) !in old(directory.entries) ==> local
      ensures local ==> created && response.playerId == old(directory.nextPlayerId)
      ensures (session.ViewOf(response.playerId), activated) ==
        Activate(session.HostNow(), old(session.ViewOf(response.playerId)), response.playerId, gate, created,
                 Env(o.now, granted, session.repository.storage.WeatherNow(o.weather), o.junk))
      ensures session.LeaseTaken(response.playerId, o, old(session.ViewOf(response.playerId)),
                                 old(session.lease.StateNow()), granted)
      ensures forall q :: q != response.playerId ==> session.ViewOf(q) == old(session.ViewOf(q))
    {
      var id, new_;
      id, new_, local := directory.ResolveOrCreate(account);
      created := new_;
      var result;
      result, granted := session.ActivatePlayer(id, gate, new_, o);
      activated := result;
      response := ResponseFor(id, result);
      dispatch := sent;
    }

    // A reconnect names its player and may not create one without Maria.
    method HandleReconnectRequest(p: PlayerId, gate: Gate, o: Sessions.Outside, sent: Result)
      returns (response: Response, dispatch: Result, ghost granted: Result, ghost activated: Result)
      requires session.Wired()
      modifies session`players, session.repository`players, session.repository.storage`redis, session.runtime`players,
               session.ipc`host, session.ipc`directory, session.lease`leases, session.lease`counters,
               session.lease.redis`keys
      ensures dispatch == sent && response == ResponseFor(p, activated)
      ensures (session.ViewOf(p), activated) ==
        Activate(session.HostNow(), old(session.ViewOf(p)), p, gate, false,
                 Env(o.now, granted, session.repository.storage.WeatherNow(o.weather), o.junk))
      ensures session.LeaseTaken(p, o, old(session.ViewOf(p)), old(session.lease.StateNow()), granted)
      ensures forall q :: q != p ==> session.ViewOf(q) == old(session.ViewOf(q))
    {
      var result;
      result, granted := session.ActivatePlayer(p, gate, false, o);
      activated := result;
      response := ResponseFor(p, result);
      dispatch := sent;
    }

    // A disconnect detaches the player if the gate is still the session's; a player without a session
    // is no error.
    method HandlePlayerDisconnected(p: PlayerId, gate: Gate, now: nat) returns (dispatch: Result)
      modifies session`players
      ensures var (v, result) := DetachPlayer(session.HostNow(), old(session.ViewOf(p)), Some(gate), now);
              session.ViewOf(p) == v && dispatch == if result == NOT_TRACKED then Success else result
      ensures forall q :: q != p ==> session.ViewOf(q) == old(session.ViewOf(q))
    {
      var result := session.DetachFrom(p, Some(gate), now);
      dispatch := if result == NOT_TRACKED then Success else result;
    }
  }
}
