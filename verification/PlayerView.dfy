// One player inside one game process, across the services that hold a piece of it: session, repository
// record, runtime instance, receiver binding, lease and stored entry. Every public call of the services
// touches a single player, so each is given here as a function on that player's view; the classes of
// the other modules are proved against these functions.
module PlayerView {
  import opened Common
  import opened Storage
  import TextForms

  // ----- the pieces -----

  datatype PlayerData = PlayerData(
    playerId: PlayerId, displayName: string, createdAtMs: nat, lastLoginAtMs: nat,
    level: nat, experience: nat, loginCount: nat, opaqueBlob: seq<nat>)

  // A stored value: a serialised player, or bytes that do not parse as one. Serialising and parsing are
  // inverse to each other.
  datatype Blob = Encoded(data: PlayerData) | Corrupt

  datatype Record = Record(
    loaded: bool, dirty: bool, pendingInitialPersist: bool, createdWithoutMaria: bool,
    loadCount: nat, flushCount: nat, lastLoadMs: nat, lastDirtyMs: nat, lastFlushMs: nat,
    data: PlayerData)

  const EMPTY_DATA := PlayerData(0, "", 0, 0, 0, 0, 0, [])
  const NEW_RECORD := Record(false, false, false, false, 0, 0, 0, 0, 0, EMPTY_DATA)

  datatype SessionState = Loading | Online | Detached | Unloading
  datatype Gate = Gate(serviceType: nat, instanceId: nat, sessionId: nat)
  datatype Session = Session(
    state: SessionState, gate: Gate, activateCount: nat, lastStateChangeMs: nat, detachDeadlineMs: nat)

  const NO_GATE := Gate(0, 0, 0)
  const NEW_SESSION := Session(Loading, NO_GATE, 0, 0, 0)

  // A binding of the receiver directory.
  datatype Binding = Binding(owner: ProcessRef, version: nat)

  datatype View = View(
    session: Option<Session>,
    record: Option<Record>,
    running: Option<nat>,       // the runtime instance's command count
    hosted: bool,               // in the player receiver host
    bound: Option<Binding>,     // in the receiver directory
    leased: bool,               // tracked by the lease service
    cell: Cell<Blob>)           // in the player dataset

  const ABSENT: View := View(None, None, None, false, None, false, Cell(None, None))

  // What a game process knows of itself: its own process reference once the IPC runtime is loaded, and
  // how long a detached player is kept.
  datatype Host = Host(self: Option<ProcessRef>, detachedTtlSeconds: nat)

  // ----- repository -----

  function DefaultData(p: PlayerId, now: nat): PlayerData {
    PlayerData(p, "player_" + TextForms.ToText(p), now, 0, 1, 0, 0, [])
  }

  function DefaultRecord(p: PlayerId, now: nat, withoutMaria: bool): Record {
    Record(true, true, true, withoutMaria, 1, 0, now, now, 0, DefaultData(p, now))
  }

  const CORRUPTED := Failure("stored player data is corrupted")
  const LOAD_FAILED := Failure("player data could not be read")

  // LoadPlayer. On failure the record it looked up or inserted stays behind; a parse failure leaves
  // some data in it.
  function Load(p: PlayerId, record: Option<Record>, cell: Cell<Blob>, allowCreate: bool, now: nat, w: Weather,
                junk: PlayerData)
    : (Record, Cell<Blob>, Result)
  {
    var r := if record.Some? then record.value else NEW_RECORD;
    var (cell', status, value) := GetCell(cell, w);
    if status.IsOk() && value.Some? then
      match value.value
      case Corrupt => (r.(data := junk), cell', CORRUPTED)
      case Encoded(data) =>
        (r.(data := data, loaded := true, lastLoadMs := now, loadCount := r.loadCount + 1), cell', Success)
    else if status.NotFound? then (DefaultRecord(p, now, false), cell', Success)
    else if allowCreate && status.MariaUnavailable? then (DefaultRecord(p, now, true), cell', Success)
    else (r, cell', LOAD_FAILED)
  }

  const NOT_LOADED := Failure("player is not loaded in repository")
  const STORE_FAILED := Failure("player data could not be stored")

  predicate IsLoaded(record: Option<Record>) {
    record.Some? && record.value.loaded
  }

  function Flush(record: Option<Record>, cell: Cell<Blob>, now: nat, w: Weather): (Option<Record>, Cell<Blob>, Result) {
    if !IsLoaded(record) then (record, cell, NOT_LOADED)
    else
      var r := record.value;
      var (cell', status) := PutCell(cell, Encoded(r.data), w);
      if !status.IsOk() then (record, cell', STORE_FAILED)
      else
        (Some(r.(dirty := false, pendingInitialPersist := false, createdWithoutMaria := false,
                 lastDirtyMs := 0, lastFlushMs := now, flushCount := r.flushCount + 1)), cell', Success)
  }

  function TouchLogin(record: Option<Record>, now: nat): (Option<Record>, Result) {
    if !IsLoaded(record) then (record, NOT_LOADED)
    else
      var r := record.value;
      (Some(r.(data := r.data.(lastLoginAtMs := now, loginCount := r.data.loginCount + 1),
               dirty := true, lastDirtyMs := now)), Success)
  }

  function SetDisplayName(record: Option<Record>, name: string, now: nat): (Option<Record>, Result) {
    if !IsLoaded(record) then (record, NOT_LOADED)
    else
      var r := record.value;
      (Some(r.(data := r.data.(displayName := name), dirty := true, lastDirtyMs := now)), Success)
  }

  // ----- receiver binding -----

  const NO_SELF := Failure("self descriptor is not initialized")
  const ALREADY_BOUND := Failure("player is already bound locally")
  const OTHER_OWNER := Failure("receiver already bound to another owner")
  const NOT_BOUND := Failure("player is not bound locally")

  // LocalReceiverDirectory.Bind
  function DirectoryBind(bound: Option<Binding>, owner: ProcessRef): (Option<Binding>, Result) {
    if bound.Some? && bound.value.version != 0 && bound.value.owner != owner then (bound, OTHER_OWNER)
    else
      var version := if bound.Some? && bound.value.version != 0 then bound.value.version else 1;
      (Some(Binding(owner, version)), Success)
  }

  // BindLocalPlayer: host first, then directory, with the host undone when the directory refuses.
  function BindLocal(h: Host, v: View): (View, Result) {
    if h.self.None? then (v, NO_SELF)
    else if v.hosted then (v, ALREADY_BOUND)
    else
      var (bound, result) := DirectoryBind(v.bound, h.self.value);
      (v.(hosted := result.Success?, bound := bound), result)
  }

  function UnbindLocal(h: Host, v: View): (View, Result) {
    if h.self.None? then (v, NO_SELF)
    else if !v.hosted then (v, NOT_BOUND)
    else if v.bound.None? then (v, Failure("player receiver location is not locally resolvable"))
    else if v.bound.value.owner != h.self.value then (v, Failure("player receiver owner mismatch"))
    else (v.(hosted := false, bound := None), Success)
  }

  // ----- runtime -----

  function EnsureRunning(v: View): (View, Result) {
    if !IsLoaded(v.record) then (v, Failure("player repository is not loaded"))
    else (v.(running := Some(if v.running.Some? then v.running.value else 0)), Success)
  }

  // ----- session -----

  const TRANSITIONING := Failure("player is transitioning and cannot be activated")
  const NOT_TRACKED := Failure("player session is not tracked")

  // The answers of the environment during one activation: the clock, the result of acquiring the lease,
  // the weather of the load and the garbage of a failed parse.
  datatype Env = Env(now: nat, lease: Result, w: Weather, junk: PlayerData)

  function Reachable(s: Session, gate: Gate, now: nat): Session {
    Session(Online, gate, s.activateCount + 1, now, 0)
  }

  predicate LeaseLost(v: View) {
    v.session.Some? && (v.session.value.state.Online? || v.session.value.state.Detached?) && !v.leased
  }

  // An activation asks for the lease of a player without a session and of one that has lost its lease.
  predicate AsksForLease(v: View) {
    v.session.None? || LeaseLost(v)
  }

  function Activate(h: Host, v: View, p: PlayerId, gate: Gate, allowCreate: bool, e: Env): (View, Result) {
    if v.session.None? then ActivateFresh(h, v, p, gate, allowCreate, e)
    else if LeaseLost(v) then Reactivate(h, v, p, gate, allowCreate, e)
    else
      var s := v.session.value;
      match s.state
      case Online =>
        (v.(session := Some(s.(gate := gate, lastStateChangeMs := e.now, activateCount := s.activateCount + 1))),
         Success)
      case Detached => (v.(session := Some(Reachable(s, gate, e.now))), Success)
      case _ => (v, TRANSITIONING)
  }

  function ActivateFresh(h: Host, v: View, p: PlayerId, gate: Gate, allowCreate: bool, e: Env): (View, Result)
    requires v.session.None?
  {
    if e.lease.Failure? then (v, e.lease)
    else
      var (record, cell, loaded) := Load(p, v.record, v.cell, allowCreate, e.now, e.w, e.junk);
      var v1 := v.(record := Some(record), cell := cell, leased := true);
      if loaded.Failure? then (v1.(leased := false), loaded) else Arrive(h, v1, true, gate, e.now)
  }

  // Bind the loaded player and give it a runtime instance; when that fails the lease goes back, and a
  // player that is new here also loses its record.
  function Settle(h: Host, v: View, isNew: bool): (View, Result) {
    var (v1, bindResult) := BindLocal(h, v);
    if bindResult.Failure? && bindResult != ALREADY_BOUND then (GivenUp(v1, isNew), bindResult)
    else
      var (v2, runResult) := EnsureRunning(v1);
      if runResult.Failure? then (GivenUp(UnbindLocal(h, v2).0, isNew), runResult)
      else (v2, Success)
  }

  // The last part of bringing a loaded player online.
  function Arrive(h: Host, v: View, isNew: bool, gate: Gate, now: nat): (View, Result) {
    var (v1, result) := Settle(h, v, isNew);
    if result.Failure? then (v1, result)
    else
      var s := if v.session.Some? then v.session.value else NEW_SESSION;
      (v1.(session := Some(Reachable(s, gate, now))), Success)
  }

  function GivenUp(v: View, isNew: bool): View {
    v.(leased := false, record := if isNew then None else v.record)
  }

  // The session survived the loss of its lease: take the lease again and reuse what is in memory.
  function Reactivate(h: Host, v: View, p: PlayerId, gate: Gate, allowCreate: bool, e: Env): (View, Result)
    requires LeaseLost(v)
  {
    if e.lease.Failure? then (v, e.lease)
    else
      var (record, cell, loaded) :=
        if v.record.Some? then (v.record.value, v.cell, Success)
        else Load(p, v.record, v.cell, allowCreate, e.now, e.w, e.junk);
      var v1 := v.(record := Some(record), cell := cell, leased := true);
      if loaded.Failure? then (v1.(leased := false), loaded) else Arrive(h, v1, false, gate, e.now)
  }

  function Detach(h: Host, s: Session, now: nat): Session {
    Session(Detached, NO_GATE, s.activateCount, now, now + h.detachedTtlSeconds * 1000)
  }

  // Both overloads of DetachPlayer; a gate is given by the one that checks it.
  function DetachPlayer(h: Host, v: View, gate: Option<Gate>, now: nat): (View, Result) {
    if v.session.None? then (v, NOT_TRACKED)
    else if !v.session.value.state.Online? then (v, Failure("player is not online"))
    else if gate.Some? && v.session.value.gate != gate.value then (v, Failure("player gate session does not match"))
    else (v.(session := Some(Detach(h, v.session.value, now))), Success)
  }

  const FLUSH_FAILED := Failure("player flush before release failed")
  const NOT_IN_REPOSITORY := Failure("player is not tracked by repository")

  function ReleasePlayer(h: Host, v: View, now: nat, w: Weather): (View, Result) {
    if v.session.None? then (v, NOT_TRACKED)
    else
      var v1 := v.(session := Some(v.session.value.(state := Unloading, lastStateChangeMs := now)));
      var dirty := v.record.Some? && v.record.value.dirty;
      var (record, cell, flushed) := if dirty then Flush(v.record, v.cell, now, w) else (v.record, v.cell, Success);
      if flushed.Failure? then (v.(record := record, cell := cell), FLUSH_FAILED)
      else
        var v2 := v1.(record := record, cell := cell);
        var (v3, unbound) := UnbindLocal(h, v2);
        if unbound.Failure? then (v3, unbound)
        else
          var v4 := v3.(running := None);
          if v4.record.None? then (v4, NOT_IN_REPOSITORY)
          else (v4.(record := None, leased := false, session := None), Success)
  }

  predicate Expired(v: View, now: nat) {
    && v.session.Some? && v.session.value.state.Detached?
    && v.session.value.detachDeadlineMs != 0 && v.session.value.detachDeadlineMs <= now
  }

  function Expire(h: Host, v: View, now: nat, w: Weather): View {
    if Expired(v, now) then ReleasePlayer(h, v, now, w).0 else v
  }

  // What one reconcile pass does to a player: a session without its lease is unbound, and an online one
  // becomes detached.
  function Reconcile(h: Host, v: View, now: nat): View {
    if !LeaseLost(v) then v
    else
      var u := UnbindLocal(h, v).0;
      if v.session.value.state.Online? then u.(session := Some(Detach(h, v.session.value, now))) else u
  }

  // ----- forwarded messages -----

  datatype Message = Echo | Rename(name: string)
  datatype Answer = PlayerNotFound | SessionExpired | HeldByOtherGame | InvalidArgument(error: string) | Handled

  const NOT_RUNNING := "player runtime is not tracked"
  const REPOSITORY_NOT_LOADED := "player repository is not loaded"
  const EMPTY_NAME := "display_name must not be empty"

  // The guards of a forwarded player message and the two handlers behind them.
  function Forward(v: View, m: Message, now: nat): (View, Answer) {
    if v.session.None? then (v, PlayerNotFound)
    else if !v.session.value.state.Online? then (v, SessionExpired)
    else if !v.leased then (v, HeldByOtherGame)
    else if v.running.None? then (v, InvalidArgument(NOT_RUNNING))
    else
      match m
      case Echo =>
        if !IsLoaded(v.record) then (v, InvalidArgument(REPOSITORY_NOT_LOADED))
        else (v.(running := Some(v.running.value + 1)), Handled)
      case Rename(name) =>
        if name == "" then (v, InvalidArgument(EMPTY_NAME))
        else
          var (record, result) := SetDisplayName(v.record, name, now);
          match result
          case Failure(message) => (v.(record := record), InvalidArgument(message))
          case Success => (v.(record := record, running := Some(v.running.value + 1)), Handled)
  }
}
