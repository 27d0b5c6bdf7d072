// One player of a game that scans from time to time: how long a change can stay unsaved.
module Durability {
  import opened Common
  import opened Storage
  import opened PlayerView
  import opened PlayerRuns
  import opened Persistence

  // The player with its retry state, the time and the time of the last scan.
  datatype Kept = Kept(v: View, retry: Option<Retry>, clock: nat, lastScan: nat)

  datatype Move = Call(step: Step) | Tick(now: nat) | Scan(w: Weather) | ResetRetry

  function TrackedIn(k: Kept): Tracked {
    Tracked(k.v.session, k.v.record, k.v.leased, k.v.cell, k.retry)
  }

  function Moved(h: Host, p: PlayerId, timing: Option<Timing>, k: Kept, m: Move): Kept {
    match m
    case Call(step) => k.(v := Next(h, p, k.v, step))
    case Tick(now) => k.(clock := now)
    case Scan(w) => AfterScan(timing, k, w)
    case ResetRetry => k.(retry := None)
  }

  function AfterScan(timing: Option<Timing>, k: Kept, w: Weather): Kept {
    var t := Visit(TrackedIn(k), timing, k.clock, w).0;
    k.(v := k.v.(record := t.record, cell := t.cell), retry := t.retry, lastScan := k.clock)
  }

  function TimeOf(step: Step): Option<nat> {
    match step
    case ActivateStep(_, _, e) => Some(e.now)
    case DetachStep(_, now) => Some(now)
    case ReleaseStep(now, _) => Some(now)
    case ExpireStep(now, _) => Some(now)
    case ReconcileStep(now) => Some(now)
    case FlushStep(now, _) => Some(now)
    case TouchLoginStep(now) => Some(now)
    case SetDisplayNameStep(_, now) => Some(now)
    case ForwardStep(_, now) => Some(now)
    case _ => None
  }

  // Calls read the clock, which goes forward; scans are at most d apart and Maria works in each; the lease
  // is not lost.
  predicate MoveOk(k: Kept, m: Move, d: nat) {
    match m
    case Call(step) => !step.LoseLeaseStep? && (TimeOf(step).Some? ==> TimeOf(step).value == k.clock)
    case Tick(now) => k.clock <= now <= k.lastScan + d
    case Scan(w) => MariaStatus(w).Ok?
    case ResetRetry => true
  }

  function RunOf(h: Host, p: PlayerId, timing: Option<Timing>, k: Kept, moves: seq<Move>): Kept {
    if moves == [] then k
    else Moved(h, p, timing, RunOf(h, p, timing, k, moves[..|moves| - 1]), moves[|moves| - 1])
  }

  predicate AllOk(h: Host, p: PlayerId, timing: Option<Timing>, k: Kept, moves: seq<Move>, d: nat) {
    moves == [] ||
    (AllOk(h, p, timing, k, moves[..|moves| - 1], d) &&
     MoveOk(RunOf(h, p, timing, k, moves[..|moves| - 1]), moves[|moves| - 1], d))
  }

  // ----- what holds in between -----

  // No record in memory is unsaved without its session and its lease.
  predicate Held(h: Host, v: View) {
    && Inv(h, v) && (v.session.Some? ==> v.leased)
    && (v.record.Some? && !v.record.value.loaded ==>
          !v.record.value.dirty && !v.record.value.pendingInitialPersist)
    && (v.record.Some? && v.record.value.pendingInitialPersist ==> v.record.value.dirty)
  }

  function Max(a: nat, b: nat): nat {
    if a < b then b else a
  }

  // What is unsaved has changed, arrived or left too short before the last scan, or after it.
  predicate Recent(v: View, landingMin: nat, lastScan: nat) {
    v.record.Some? && v.record.value.dirty ==>
      var r := v.record.value;
      && lastScan <= r.lastDirtyMs + 1000 * landingMin
      && (r.pendingInitialPersist ==> lastScan <= r.lastLoadMs)
      && (HasState(v, {Detached}) ==> lastScan <= Max(r.lastDirtyMs, v.session.value.lastStateChangeMs))
  }

  lemma ActivationKeepsHeld(h: Host, p: PlayerId, v: View, gate: Gate, allowCreate: bool, e: Env, landingMin: nat,
                            lastScan: nat)
    requires Held(h, v) && Recent(v, landingMin, lastScan) && lastScan <= e.now
    ensures var v' := Activate(h, v, p, gate, allowCreate, e).0;
            Held(h, v') && Recent(v', landingMin, lastScan)
  {
    ActivateInv(h, v, p, gate, allowCreate, e);
    if v.session.None? {
      var (record, cell, _) := Load(p, v.record, v.cell, allowCreate, e.now, e.w, e.junk);
      SettleInv(h, v.(record := Some(record), cell := cell, leased := true), true);
    }
  }

  lemma CallKeepsHeld(h: Host, p: PlayerId, v: View, step: Step, landingMin: nat, lastScan: nat, clock: nat)
    requires Held(h, v) && Recent(v, landingMin, lastScan) && lastScan <= clock
    requires !step.LoseLeaseStep? && (TimeOf(step).Some? ==> TimeOf(step).value == clock)
    ensures var v' := Next(h, p, v, step);
            Held(h, v') && Recent(v', landingMin, lastScan)
  {
    if step.ActivateStep? {
      ActivationKeepsHeld(h, p, v, step.gate, step.allowCreate, step.e, landingMin, lastScan);
    } else {
      NextInv(h, p, v, step);
    }
  }

  lemma ScanSaves(h: Host, p: PlayerId, timing: Option<Timing>, k: Kept, w: Weather)
    requires Held(h, k.v) && timing.Some? && k.retry.None? && MariaStatus(w).Ok?
    ensures var k' := Moved(h, p, timing, k, Scan(w));
            && Held(h, k'.v) && Recent(k'.v, timing.value.landingMinSeconds, k.clock)
            && k'.retry.None? && k'.lastScan == k.clock == k'.clock
  {
    VisitDoes(TrackedIn(k), timing, k.clock, w);
  }

  predicate Known(h: Host, timing: Timing, k: Kept, d: nat) {
    && Held(h, k.v) && Recent(k.v, timing.landingMinSeconds, k.lastScan)
    && k.retry.None? && k.lastScan <= k.clock <= k.lastScan + d
  }

  lemma {:induction false} RunKnown(h: Host, p: PlayerId, timing: Timing, k: Kept, moves: seq<Move>, d: nat)
    requires Untouched(k.v) && k.retry.None? && k.clock == k.lastScan && AllOk(h, p, Some(timing), k, moves, d)
    ensures Known(h, timing, RunOf(h, p, Some(timing), k, moves), d)
  {
    if moves != [] {
      var before, last := moves[..|moves| - 1], moves[|moves| - 1];
      RunKnown(h, p, timing, k, before, d);
      var b := RunOf(h, p, Some(timing), k, before);
      match last
      case Call(step) => CallKeepsHeld(h, p, b.v, step, timing.landingMinSeconds, b.lastScan, b.clock);
      case Scan(w) => ScanSaves(h, p, Some(timing), b, w);
      case _ =>
    }
  }

  // While scans are at most d apart, Maria works and the lease is held, nothing stays unsaved for longer
  // than the shortest landing time and d after its last change; a player that is new not longer than d
  // after it came, and one that has left not longer than d after it left or changed last.
  lemma ChangesAreSavedInTime(h: Host, p: PlayerId, timing: Timing, k: Kept, moves: seq<Move>, d: nat)
    requires Untouched(k.v) && k.retry.None? && k.clock == k.lastScan && AllOk(h, p, Some(timing), k, moves, d)
    ensures var now := RunOf(h, p, Some(timing), k, moves);
            now.v.record.Some? && now.v.record.value.dirty ==>
              var r := now.v.record.value;
              && now.clock <= r.lastDirtyMs + 1000 * timing.landingMinSeconds + d
              && (r.pendingInitialPersist ==> now.clock <= r.lastLoadMs + d)
              && (HasState(now.v, {Detached}) ==>
                    now.clock <= Max(r.lastDirtyMs, now.v.session.value.lastStateChangeMs) + d)
  {
    RunKnown(h, p, timing, k, moves, d);
  }

  // ----- a player that keeps changing -----

  // One round: the player is renamed, time goes on by less than the shortest landing time, a scan.
  function Round(timing: Timing, k: Kept, name: string, pause: nat, w: Weather): Kept {
    var renamed := k.v.(record := SetDisplayName(k.v.record, name, k.clock).0);
    AfterScan(Some(timing), k.(v := renamed, clock := k.clock + pause), w)
  }

  function Rounds(timing: Timing, k: Kept, name: string, pause: nat, w: Weather, n: nat): Kept {
    if n == 0 then k else Round(timing, Rounds(timing, k, name, pause, w, n - 1), name, pause, w)
  }

  predicate IsBusy(k: Kept, stored: Cell<Blob>) {
    && HasState(k.v, {Online}) && k.v.leased && k.retry.None?
    && IsLoaded(k.v.record) && !k.v.record.value.pendingInitialPersist && k.v.cell == stored
  }

  predicate IsRenamed(k: Kept, name: string) {
    k.v.record.Some? && k.v.record.value.dirty && k.v.record.value.data.displayName == name
  }

  lemma RoundIsThreeMoves(h: Host, p: PlayerId, timing: Timing, k: Kept, name: string, pause: nat, w: Weather)
    ensures RunOf(h, p, Some(timing), k,
                  [] + [Call(SetDisplayNameStep(name, k.clock))] + [Tick(k.clock + pause)] + [Scan(w)]) ==
            Round(timing, k, name, pause, w)
  {
    var one := [] + [Call(SetDisplayNameStep(name, k.clock))];
    RunOfPlus(h, p, Some(timing), k, [], Call(SetDisplayNameStep(name, k.clock)));
    RunOfPlus(h, p, Some(timing), k, one, Tick(k.clock + pause));
    RunOfPlus(h, p, Some(timing), k, one + [Tick(k.clock + pause)], Scan(w));
  }

  lemma RunOfPlus(h: Host, p: PlayerId, timing: Option<Timing>, k: Kept, a: seq<Move>, m: Move)
    ensures RunOf(h, p, timing, k, a + [m]) == Moved(h, p, timing, RunOf(h, p, timing, k, a), m)
  {
    assert (a + [m])[..|a|] == a;
  }

  lemma RoundSavesNothing(timing: Timing, k: Kept, name: string, pause: nat, w: Weather)
    requires 0 < k.clock && pause < 1000 * timing.landingMinSeconds && IsBusy(k, k.v.cell)
    ensures var after := Round(timing, k, name, pause, w);
            IsBusy(after, k.v.cell) && IsRenamed(after, name) && after.clock == k.clock + pause
  {
    var renamed := k.v.(record := SetDisplayName(k.v.record, name, k.clock).0);
    VisitDoes(TrackedIn(k.(v := renamed)), Some(timing), k.clock + pause, w);
  }

  // So the time of the last change matters: a player renamed more often than the shortest landing time is
  // not saved by any number of scans, with every server working.
  lemma {:induction false} BusyPlayersAreNeverSaved(timing: Timing, k: Kept, name: string, pause: nat, w: Weather,
                                                    n: nat)
    requires 0 < k.clock && pause < 1000 * timing.landingMinSeconds && IsBusy(k, k.v.cell)
    ensures var after := Rounds(timing, k, name, pause, w, n);
            IsBusy(after, k.v.cell) && after.clock == k.clock + n * pause && (0 < n ==> IsRenamed(after, name))
  {
    if n > 0 {
      assert n * pause == (n - 1) * pause + pause;
      BusyPlayersAreNeverSaved(timing, k, name, pause, w, n - 1);
      RoundSavesNothing(timing, Rounds(timing, k, name, pause, w, n - 1), name, pause, w);
    }
  }
}
