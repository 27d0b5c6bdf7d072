// The services of one game process that hold a piece of a player: the repository over the player
// dataset, the runtime instances, and the receiver host and directory behind the IPC client. Each
// method is proved against the function of PlayerView that says what it does to its player, and to
// leave every other player alone.
module GameServices {
  import opened Common
  import opened Storage
  import opened PlayerView
  import TextForms

  function StoreKey(p: PlayerId): string {
    TextForms.ToText(p)
  }

  lemma StoreKeysDiffer(p: PlayerId)
    ensures StoreKey(p) != ""
    ensures forall q :: q != p ==> StoreKey(q) != StoreKey(p)
  {
    forall q | q != p
      ensures StoreKey(q) != StoreKey(p)
    {
      TextForms.ToTextInjective(q, p);
    }
  }

  class PlayerRepository {
    const storage: StorageService<Blob>
    var players: map<PlayerId, Record>

    constructor (storage: StorageService<Blob>)
      ensures this.storage == storage && players == map[]
    {
      this.storage, players := storage, map[];
    }

    function RecordOf(p: PlayerId): Option<Record>
      reads this
    {
      Lookup(players, p)
    }

    function CellOf(p: PlayerId): Cell<Blob>
      reads storage
    {
      storage.CellAt(StoreKey(p))
    }

    method LoadPlayer(p: PlayerId, allowCreate: bool, now: nat, answers: Weather, junk: PlayerData)
      returns (result: Result)
      modifies this`players, storage`redis
      ensures p in players && (players[p], CellOf(p), result) ==
        Load(p, old(RecordOf(p)), old(CellOf(p)), allowCreate, now, storage.WeatherNow(answers), junk)
      ensures forall q :: q != p ==> RecordOf(q) == old(RecordOf(q)) && CellOf(q) == old(CellOf(q))
    {
      if p !in players {
        players := players[p := NEW_RECORD];
      }
      var status, value := ReadEntry(p, answers);
      if status.IsOk() {
        result := TakeStored(p, value.value, now, junk);
        return;
      }
      if status.NotFound? {
        InitializeDefaultPlayerData(p, now, false);
      } else if allowCreate && status.MariaUnavailable? {
        InitializeDefaultPlayerData(p, now, true);
      } else {
        return LOAD_FAILED;
      }
      MarkLoaded(p, now);
      result := Success;
    }

    method ReadEntry(p: PlayerId, answers: Weather) returns (status: Status, value: Option<Blob>)
      modifies storage`redis
      ensures (CellOf(p), status, value) == GetCell(old(CellOf(p)), storage.WeatherNow(answers))
      ensures status.IsOk() ==> value.Some?
      ensures forall q :: q != p ==> CellOf(q) == old(CellOf(q))
    {
      StoreKeysDiffer(p);
      status, value := storage.DatasetGet(StoreKey(p), answers);
    }

    // The stored value parsed into the record; one that does not parse leaves something in it.
    method TakeStored(p: PlayerId, value: Blob, now: nat, junk: PlayerData) returns (result: Result)
      requires p in players
      modifies this`players
      ensures result == if value.Corrupt? then CORRUPTED else Success
      ensures var r := old(players[p]);
              players == old(players)[p := if value.Corrupt? then r.(data := junk)
                                           else r.(data := value.data, loaded := true, lastLoadMs := now,
                                                   loadCount := r.loadCount + 1)]
    {
      match value {
        case Corrupt =>
          players := players[p := players[p].(data := junk)];
          result := CORRUPTED;
        case Encoded(data) =>
          players := players[p := players[p].(data := data)];
          MarkLoaded(p, now);
          result := Success;
      }
    }

    method MarkLoaded(p: PlayerId, now: nat)
      requires p in players
      modifies this`players
      ensures players == old(players)[p := old(players[p]).(loaded := true, lastLoadMs := now,
                                                            loadCount := old(players[p]).loadCount + 1)]
    {
      players := players[p := players[p].(loaded := true, lastLoadMs := now, loadCount := players[p].loadCount + 1)];
    }

    // The record of a player without stored data, waiting for its first flush.
    method InitializeDefaultPlayerData(p: PlayerId, now: nat, withoutMaria: bool)
      modifies this`players
      ensures players == old(players)[p := NEW_RECORD.(data := DefaultData(p, now), dirty := true,
                pendingInitialPersist := true, createdWithoutMaria := withoutMaria, lastDirtyMs := now)]
    {
      var r := NEW_RECORD.(data := DefaultData(p, now));
      players := players[p := r.(dirty := true, pendingInitialPersist := true,
                                 createdWithoutMaria := withoutMaria, lastDirtyMs := now)];
    }

    method FlushPlayer(p: PlayerId, now: nat, answers: Weather) returns (result: Result)
      modifies this`players, storage`redis, storage`table
      ensures (RecordOf(p), CellOf(p), result) ==
        Flush(old(RecordOf(p)), old(CellOf(p)), now, storage.WeatherNow(answers))
      ensures forall q :: q != p ==> RecordOf(q) == old(RecordOf(q)) && CellOf(q) == old(CellOf(q))
      ensures players.Keys == old(players).Keys
    {
      if p !in players || !players[p].loaded {
        return NOT_LOADED;
      }
      StoreKeysDiffer(p);
      var status := storage.DatasetPut(StoreKey(p), Encoded(players[p].data), answers);
      if !status.IsOk() {
        return STORE_FAILED;
      }
      players := players[p := players[p].(dirty := false, pendingInitialPersist := false, createdWithoutMaria := false,
                                          lastDirtyMs := 0, lastFlushMs := now,
                                          flushCount := players[p].flushCount + 1)];
      result := Success;
    }

    method ReleasePlayer(p: PlayerId) returns (result: Result)
      modifies this`players
      ensures result == if p in old(players) then Success else NOT_IN_REPOSITORY
      ensures players == old(players) - {p}
    {
      if p !in players {
        assert players - {p} == players;
        return NOT_IN_REPOSITORY;
      }
      players := players - {p};
      result := Success;
    }

    method TouchLoginOf(p: PlayerId, now: nat) returns (result: Result)
      modifies this`players
      ensures (RecordOf(p), result) == TouchLogin(old(RecordOf(p)), now)
      ensures forall q :: q != p ==> RecordOf(q) == old(RecordOf(q))
    {
      if p !in players || !players[p].loaded {
        return NOT_LOADED;
      }
      var d := players[p].data;
      players := players[p := players[p].(data := d.(lastLoginAtMs := now, loginCount := d.loginCount + 1))];
      players := players[p := players[p].(dirty := true, lastDirtyMs := now)];
      result := Success;
    }

    method SetDisplayNameOf(p: PlayerId, name: string, now: nat) returns (result: Result)
      modifies this`players
      ensures (RecordOf(p), result) == SetDisplayName(old(RecordOf(p)), name, now)
      ensures forall q :: q != p ==> RecordOf(q) == old(RecordOf(q))
    {
      if p !in players || !players[p].loaded {
        return NOT_LOADED;
      }
      players := players[p := players[p].(data := players[p].data.(displayName := name))];
      players := players[p := players[p].(dirty := true, lastDirtyMs := now)];
      result := Success;
    }
  }

  class PlayerRuntimeService {
    const repository: PlayerRepository
    var players: map<PlayerId, nat>  // the command counts of the instances

    constructor (repository: PlayerRepository)
      ensures this.repository == repository && players == map[]
    {
      this.repository, players := repository, map[];
    }

    function RunningOf(p: PlayerId): Option<nat>
      reads this
    {
      Lookup(players, p)
    }

    method EnsurePlayer(p: PlayerId) returns (result: Result)
      modifies this`players
      ensures result.Success? <==> IsLoaded(repository.RecordOf(p))
      ensures result.Failure? ==> result == Failure("player repository is not loaded") && players == old(players)
      ensures result.Success? ==>
        players == old(players)[p := if p in old(players) then old(players)[p] else 0]
    {
      if !IsLoaded(repository.RecordOf(p)) {
        return Failure("player repository is not loaded");
      }
      if p !in players {
        players := players[p := 0];
      }
      result := Success;
    }

    method RemovePlayer(p: PlayerId) returns (result: Result)
      modifies this`players
      ensures result.Success? <==> p in old(players)
      ensures players == old(players) - {p}
    {
      result := if p in players then Success else Failure("player runtime is not tracked");
      players := players - {p};
    }

    method Handle(p: PlayerId, m: Message, now: nat) returns (answer: Answer)
      modifies this`players, repository`players
      ensures var v := ABSENT.(session := Some(NEW_SESSION.(state := Online)), leased := true,
                               record := old(repository.RecordOf(p)), running := old(RunningOf(p)));
              Forward(v, m, now) == (v.(record := repository.RecordOf(p), running := RunningOf(p)), answer)
      ensures forall q :: q != p ==>
        repository.RecordOf(q) == old(repository.RecordOf(q)) && RunningOf(q) == old(RunningOf(q))
    {
      if p !in players {
        return InvalidArgument(NOT_RUNNING);
      }
      match m {
        case Echo =>
          if !IsLoaded(repository.RecordOf(p)) {
            return InvalidArgument(REPOSITORY_NOT_LOADED);
          }
        case Rename(name) =>
          if name == "" {
            return InvalidArgument(EMPTY_NAME);
          }
          var renamed := repository.SetDisplayNameOf(p, name, now);
          if renamed.Failure? {
            return InvalidArgument(renamed.message);
          }
      }
      players := players[p := players[p] + 1];
      answer := Handled;
    }
  }

  // The receiver host and the receiver directory of the IPC client. The directory is keyed by the text
  // of the receiver address; TextForms.ReceiverKeyInjective makes that the same as the address.
  class GameIpcClientService {
    const self: Option<ProcessRef>  // set when the IPC runtime is loaded
    var host: set<PlayerId>
    var directory: map<TextForms.ReceiverAddress, Binding>

    constructor (self: Option<ProcessRef>)
      ensures this.self == self && host == {} && directory == map[]
    {
      this.self, host, directory := self, {}, map[];
    }

    static function Receiver(p: PlayerId): TextForms.ReceiverAddress {
      TextForms.ReceiverAddress(TextForms.PlayerReceiver, p, 0)
    }

    function BoundOf(p: PlayerId): Option<Binding>
      reads this
    {
      if Receiver(p) in directory then Some(directory[Receiver(p)]) else None
    }

    // LocalReceiverDirectory.Bind
    method Bind(receiver: TextForms.ReceiverAddress, owner: ProcessRef) returns (result: Result)
      modifies this`directory
      ensures var bound := if receiver in old(directory) then Some(old(directory)[receiver]) else None;
              && result == DirectoryBind(bound, owner).1
              && directory == if result.Success? then old(directory)[receiver := DirectoryBind(bound, owner).0.value]
                              else old(directory)
    {
      if receiver in directory && directory[receiver].version != 0 && directory[receiver].owner != owner {
        return OTHER_OWNER;
      }
      var known := receiver in directory && directory[receiver].version != 0;
      var version := if known then directory[receiver].version else 1;
      directory := directory[receiver := Binding(owner, version)];
      result := Success;
    }

    // LocalReceiverDirectory.Rebind
    method Rebind(receiver: TextForms.ReceiverAddress, oldOwner: ProcessRef, newOwner: ProcessRef)
      returns (result: Result)
      modifies this`directory
      ensures result.Success? <==> receiver in old(directory) && old(directory)[receiver].owner == oldOwner
      ensures result.Success? ==>
        directory == old(directory)[receiver := Binding(newOwner, old(directory)[receiver].version + 1)]
      ensures result.Failure? ==> directory == old(directory)
    {
      if receiver !in directory {
        return Failure("receiver is not bound");
      }
      if directory[receiver].owner != oldOwner {
        return Failure("receiver owner mismatch");
      }
      directory := directory[receiver := Binding(newOwner, directory[receiver].version + 1)];
      result := Success;
    }

    // LocalReceiverDirectory.Invalidate
    method Invalidate(receiver: TextForms.ReceiverAddress, owner: ProcessRef, version: nat) returns (result: Result)
      modifies this`directory
      ensures result.Success? <==> receiver in old(directory) && old(directory)[receiver] == Binding(owner, version)
      ensures directory == if result.Success? then old(directory) - {receiver} else old(directory)
    {
      if receiver !in directory {
        return Failure("receiver is not bound");
      }
      if directory[receiver].owner != owner {
        return Failure("receiver owner mismatch");
      }
      if directory[receiver].version != version {
        return Failure("receiver version mismatch");
      }
      directory := directory - {receiver};
      result := Success;
    }

    // The player's part of a view, with everything the IPC client does not know left out.
    function IpcView(p: PlayerId): View
      reads this
    {
      ABSENT.(hosted := p in host, bound := BoundOf(p))
    }

    method BindLocalPlayer(p: PlayerId) returns (result: Result)
      modifies this`host, this`directory
      ensures (IpcView(p), result) == BindLocal(Host(self, 0), old(IpcView(p)))
      ensures forall q :: q != p ==> (q in host <==> q in old(host)) && BoundOf(q) == old(BoundOf(q))
    {
      if self.None? {
        return NO_SELF;
      }
      if p in host {
        return ALREADY_BOUND;
      }
      host := host + {p};
      result := Bind(Receiver(p), self.value);
      if result.Failure? {
        host := host - {p};
      }
    }

    method UnbindLocalPlayer(p: PlayerId) returns (result: Result)
      modifies this`host, this`directory
      ensures (IpcView(p), result) == UnbindLocal(Host(self, 0), old(IpcView(p)))
      ensures forall q :: q != p ==> (q in host <==> q in old(host)) && BoundOf(q) == old(BoundOf(q))
    {
      if self.None? {
        return NO_SELF;
      }
      if p !in host {
        return NOT_BOUND;
      }
      var receiver := Receiver(p);
      if receiver !in directory {
        return Failure("player receiver location is not locally resolvable");
      }
      var location := directory[receiver];
      if location.owner != self.value {
        return Failure("player receiver owner mismatch");
      }
      result := Invalidate(receiver, self.value, location.version);
      if result.Failure? {
        return;
      }
      host := host - {p};
    }

    // Binds the player to the first discovered member of the game service with the instance; members is
    // the discovery snapshot.
    method BindRemotePlayer(p: PlayerId, gameServiceType: U32, instanceId: U32, members: seq<ProcessRef>)
      returns (result: Result)
      modifies this`directory
      ensures (BoundOf(p), result) ==
        BindRemote(Host(self, 0), old(BoundOf(p)), FirstWith(members, ProcessId(gameServiceType, instanceId)))
      ensures forall q :: q != p ==> BoundOf(q) == old(BoundOf(q))
    {
      if self.None? {
        return NO_SELF;
      }
      var id := ProcessId(gameServiceType, instanceId);
      assert members[0..] == members;
      for i := 0 to |members|
        invariant directory == old(directory)
        invariant FirstWith(members[i..], id) == FirstWith(members, id)
      {
        assert members[i..][0] == members[i] && members[i..][1..] == members[i + 1..];
        if members[i].id == id {
          result := Bind(Receiver(p), members[i]);
          return;
        }
      }
      result := NOT_DISCOVERED;
    }
  }

  const NOT_DISCOVERED := Failure("target player owner not found in discovery snapshot")

  function FirstWith(members: seq<ProcessRef>, id: ProcessId): Option<ProcessRef> {
    if members == [] then None
    else if members[0].id == id then Some(members[0])
    else FirstWith(members[1..], id)
  }

  function BindRemote(h: Host, bound: Option<Binding>, found: Option<ProcessRef>): (Option<Binding>, Result) {
    if h.self.None? then (bound, NO_SELF)
    else if found.None? then (bound, NOT_DISCOVERED)
    else DirectoryBind(bound, found.value)
  }

  lemma {:induction false} FirstWithIsFirst(members: seq<ProcessRef>, id: ProcessId)
    ensures FirstWith(members, id).None? <==> forall i :: 0 <= i < |members| ==> members[i].id != id
    ensures FirstWith(members, id).Some? ==>
              exists i :: 0 <= i < |members| && members[i] == FirstWith(members, id).value && members[i].id == id &&
                          forall j :: 0 <= j < i ==> members[j].id != id
  {
    if members != [] && members[0].id != id {
      FirstWithIsFirst(members[1..], id);
      assert forall j :: 1 <= j < |members| ==> members[j] == members[1..][j - 1];
      if FirstWith(members[1..], id).Some? {
        var i :| 0 <= i < |members[1..]| && members[1..][i] == FirstWith(members[1..], id).value &&
                 members[1..][i].id == id && forall j :: 0 <= j < i ==> members[1..][j].id != id;
        assert members[i + 1].id == id && forall j :: 0 <= j < i + 1 ==> members[j].id != id;
      }
    }
  }

  // A remote bind names the first member with the id; it is refused without one, and when the player is
  // bound to somebody else. A refused one changes nothing.
  lemma RemoteBindAchieves(h: Host, bound: Option<Binding>, members: seq<ProcessRef>, id: ProcessId)
    requires bound.Some? ==> bound.value.version >= 1
    ensures var (bound', result) := BindRemote(h, bound, FirstWith(members, id));
            && (result.Success? ==>
                  exists i :: 0 <= i < |members| && members[i].id == id &&
                              (forall j :: 0 <= j < i ==> members[j].id != id) && bound'.Some? &&
                              bound'.value.owner == members[i] &&
                              bound'.value.version == if bound.Some? then bound.value.version else 1)
            && (result.Success? && bound.Some? ==> bound' == bound)
            && (result.Failure? ==> bound' == bound)
            && (result.Failure? <==> h.self.None? || (forall i :: 0 <= i < |members| ==> members[i].id != id) ||
                                     (bound.Some? && Some(bound.value.owner) != FirstWith(members, id)))
  {
    FirstWithIsFirst(members, id);
  }
}
