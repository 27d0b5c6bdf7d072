// The life of a session over whole runs: which activations work and what they achieve, through which gate
// a player is reached, how long a detached player is kept and what its messages do.
module SessionLife {
  import opened Common
  import opened Storage
  import opened PlayerView
  import opened PlayerRuns
  import Sessions = SessionService
  import TextForms

  lemma {:induction false} RunKeepsInv(h: Host, p: PlayerId, v: View, steps: seq<Step>)
    requires Inv(h, v)
    ensures Inv(h, Run(h, p, v, steps))
  {
    if steps != [] {
      RunKeepsInv(h, p, v, steps[..|steps| - 1]);
      NextInv(h, p, Run(h, p, v, steps[..|steps| - 1]), steps[|steps| - 1]);
    }
  }

  // ----- activation -----

  function TimesActivated(v: View): nat {
    if v.session.Some? then v.session.value.activateCount else 0
  }

  // On every branch an activation that works leaves the session online at exactly the given gate, since
  // now, without a deadline and with one more activation counted, and the player is in every service; one
  // that fails leaves the session, the runtime instance and the lease as they were.
  lemma ActivationAchieves(h: Host, p: PlayerId, v: View, gate: Gate, allowCreate: bool, e: Env)
    requires Inv(h, v) && SessionOk(h, v)
    ensures var (v', result) := Activate(h, v, p, gate, allowCreate, e);
            && (result.Success? ==>
                  && v'.session == Some(Session(Online, gate, TimesActivated(v) + 1, e.now, 0))
                  && v'.leased && v'.hosted && IsLoaded(v'.record) && v'.running.Some?
                  && (v.running.Some? ==> v'.running == v.running))
            && (result.Failure? ==> v'.session == v.session && v'.running == v.running && v'.leased == v.leased)
  {
    if v.session.None? {
      LoadLoads(p, v.record, v.cell, allowCreate, e.now, e.w, e.junk);
    }
  }

  // What a load needs: an answer of Redis, and there or in the table something that parses or nothing. Only
  // with permission to create does it work without Maria.
  predicate Readable(cell: Cell<Blob>, allowCreate: bool, w: Weather) {
    && w.redisUp && w.redisGet.Answered?
    && if cell.cached.Some? then cell.cached.value.Encoded?
       else if !w.mariaUp then allowCreate
       else MariaStatus(w).Ok? && (cell.table.Some? ==> cell.table.value.Encoded?)
  }

  lemma LoadLoads(p: PlayerId, record: Option<Record>, cell: Cell<Blob>, allowCreate: bool, now: nat, w: Weather,
                  junk: PlayerData)
    ensures var (r, cell', result) := Load(p, record, cell, allowCreate, now, w, junk);
            && (result.Success? <==> Readable(cell, allowCreate, w))
            && (result.Success? ==> r.loaded)
  {
  }

  // The receiver can be bound here: nobody else has it in the directory.
  predicate Bindable(h: Host, v: View) {
    h.self.Some? && (v.bound.Some? ==> v.bound.value.owner == h.self.value)
  }

  // Exactly when an activation works, in every reachable state.
  lemma ActivationWorksExactly(h: Host, p: PlayerId, v: View, gate: Gate, allowCreate: bool, e: Env)
    requires Inv(h, v)
    ensures Activate(h, v, p, gate, allowCreate, e).1.Success? <==>
              if v.session.None? then e.lease.Success? && Readable(v.cell, allowCreate, e.w) && Bindable(h, v)
              else if v.leased then HasState(v, {Online, Detached})
              else HasState(v, {Online, Detached}) && e.lease.Success? && Bindable(h, v)
  {
    if v.session.None? {
      LoadLoads(p, v.record, v.cell, allowCreate, e.now, e.w, e.junk);
    }
  }

  // ----- the session after a run -----

  // An online session has no deadline; a detached one has no gate and the deadline of its detachment.
  predicate SessionOk(h: Host, v: View) {
    v.session.Some? ==>
      var s := v.session.value;
      && (s.state.Online? ==> s.detachDeadlineMs == 0)
      && (s.state.Detached? ==> s.gate == NO_GATE &&
                                s.detachDeadlineMs == s.lastStateChangeMs + h.detachedTtlSeconds * 1000)
  }

  predicate Activates(h: Host, p: PlayerId, v: View, step: Step) {
    step.ActivateStep? && Activate(h, v, p, step.gate, step.allowCreate, step.e).1.Success?
  }

  // How often the present session was activated, and by which activation last.
  function Activations(h: Host, p: PlayerId, v: View, steps: seq<Step>): nat {
    if steps == [] || Run(h, p, v, steps).session.None? then 0
    else
      var before, last := steps[..|steps| - 1], steps[|steps| - 1];
      Activations(h, p, v, before) + if Activates(h, p, Run(h, p, v, before), last) then 1 else 0
  }

  function LastActivation(h: Host, p: PlayerId, v: View, steps: seq<Step>): Option<Step> {
    if steps == [] then None
    else
      var before, last := steps[..|steps| - 1], steps[|steps| - 1];
      if Activates(h, p, Run(h, p, v, before), last) then Some(last) else LastActivation(h, p, v, before)
  }

  // A step that is no working activation leaves an online session alone or ends its being online, and
  // makes no session online.
  lemma OtherSteps(h: Host, p: PlayerId, v: View, step: Step)
    requires Inv(h, v) && SessionOk(h, v) && !Activates(h, p, v, step)
    ensures var v' := Next(h, p, v, step);
            && SessionOk(h, v')
            && (v'.session.Some? ==> v.session.Some? && TimesActivated(v') == TimesActivated(v))
            && (HasState(v', {Online}) ==> v'.session == v.session)
  {
    if step.ActivateStep? {
      ActivationAchieves(h, p, v, step.gate, step.allowCreate, step.e);
    }
  }

  // After every run the session counts the activations that worked since it began, at least one; online it
  // is reached through the gate of the last of them, since the time of that activation.
  lemma {:induction false} SessionFollowsActivations(h: Host, p: PlayerId, v: View, steps: seq<Step>)
    requires Untouched(v)
    ensures var s := Run(h, p, v, steps);
            && SessionOk(h, s)
            && (s.session.Some? ==> TimesActivated(s) == Activations(h, p, v, steps) >= 1)
            && (HasState(s, {Online}) ==>
                  var last := LastActivation(h, p, v, steps);
                  last.Some? && last.value.ActivateStep? && s.session.value.gate == last.value.gate &&
                  s.session.value.lastStateChangeMs == last.value.e.now)
  {
    if steps != [] {
      var before, last := steps[..|steps| - 1], steps[|steps| - 1];
      SessionFollowsActivations(h, p, v, before);
      RunInv(h, p, v, before);
      var s := Run(h, p, v, before);
      if Activates(h, p, s, last) {
        ActivationAchieves(h, p, s, last.gate, last.allowCreate, last.e);
      } else {
        OtherSteps(h, p, s, last);
      }
    }
  }

  // Right after an activation that works, messages are handled, no sweep and no reconciliation touches the
  // player, and it is detached from its gate and from no other.
  lemma ActivatedIsReachable(h: Host, p: PlayerId, v: View, steps: seq<Step>, gate: Gate, allowCreate: bool, e: Env,
                             m: Message, at: nat, w: Weather, check: Option<Gate>)
    requires Untouched(v) && Activate(h, Run(h, p, v, steps), p, gate, allowCreate, e).1.Success?
    ensures var s := Activate(h, Run(h, p, v, steps), p, gate, allowCreate, e).0;
            && Forward(s, m, at).1 == (if m == Rename("") then InvalidArgument(EMPTY_NAME) else Handled)
            && Expire(h, s, at, w) == s && Reconcile(h, s, at) == s
            && (DetachPlayer(h, s, check, at).1.Success? <==> check.None? || check == Some(gate))
  {
    RunInv(h, p, v, steps);
    SessionFollowsActivations(h, p, v, steps);
    ActivationAchieves(h, p, Run(h, p, v, steps), gate, allowCreate, e);
  }

  // ----- detached players -----

  // Exactly an online player is detached, by its gate or without a check; then it has no gate and its
  // deadline. A refused detachment changes nothing.
  lemma DetachAchieves(h: Host, v: View, check: Option<Gate>, now: nat)
    ensures var (v', result) := DetachPlayer(h, v, check, now);
            && (result.Success? <==> HasState(v, {Online}) && (check.None? || check.value == v.session.value.gate))
            && (result.Success? ==>
                  v' == v.(session := Some(Session(Detached, Gate(0, 0, 0), TimesActivated(v), now,
                                                   now + 1000 * h.detachedTtlSeconds))))
            && (result.Failure? ==> v' == v)
  {
  }

  // A step that leaves a detached session alone: no activation that works, no release, and no sweep at or
  // after the deadline.
  predicate Waits(h: Host, p: PlayerId, v: View, step: Step, deadline: nat) {
    !Activates(h, p, v, step) && !step.ReleaseStep? && (step.ExpireStep? ==> step.now < deadline)
  }

  predicate AllWait(h: Host, p: PlayerId, v: View, steps: seq<Step>, deadline: nat) {
    steps == [] ||
    (AllWait(h, p, v, steps[..|steps| - 1], deadline) &&
     Waits(h, p, Run(h, p, v, steps[..|steps| - 1]), steps[|steps| - 1], deadline))
  }

  lemma WaitingStep(h: Host, p: PlayerId, v: View, step: Step)
    requires Inv(h, v) && SessionOk(h, v) && HasState(v, {Detached})
    requires Waits(h, p, v, step, v.session.value.detachDeadlineMs)
    ensures Next(h, p, v, step).session == v.session
  {
    if step.ActivateStep? {
      ActivationAchieves(h, p, v, step.gate, step.allowCreate, step.e);
    }
  }

  lemma {:induction false} DetachedIsKept(h: Host, p: PlayerId, v: View, steps: seq<Step>)
    requires Inv(h, v) && SessionOk(h, v) && HasState(v, {Detached})
    requires AllWait(h, p, v, steps, v.session.value.detachDeadlineMs)
    ensures Run(h, p, v, steps).session == v.session
  {
    if steps != [] {
      var before := steps[..|steps| - 1];
      DetachedIsKept(h, p, v, before);
      RunKeepsInv(h, p, v, before);
      WaitingStep(h, p, Run(h, p, v, before), steps[|steps| - 1]);
    }
  }

  // A player detached at t and not activated or released since is kept for exactly the configured time: no
  // sweep before t + ttl touches it, and a sweep from then on ends its session exactly if it is still bound
  // here and what is dirty can be flushed.
  lemma KeptExactlyUntilItsDeadline(h: Host, p: PlayerId, v: View, steps: seq<Step>, check: Option<Gate>, t: nat,
                                    waiting: seq<Step>, now: nat, w: Weather)
    requires Untouched(v) && DetachPlayer(h, Run(h, p, v, steps), check, t).1.Success?
    requires var detached := DetachPlayer(h, Run(h, p, v, steps), check, t).0;
             AllWait(h, p, detached, waiting, t + h.detachedTtlSeconds * 1000)
    ensures var deadline := t + h.detachedTtlSeconds * 1000;
            var there := Run(h, p, DetachPlayer(h, Run(h, p, v, steps), check, t).0, waiting);
            && there.session == Some(Session(Detached, NO_GATE, Activations(h, p, v, steps), t, deadline))
            && (now < deadline ==> Expire(h, there, now, w) == there)
            && (0 < deadline <= now && there.hosted && FlushSucceeds(there, w) ==>
                  Gone(there, Expire(h, there, now, w)))
            && (Expire(h, there, now, w).session.None? <==>
                  0 < deadline <= now && there.hosted && FlushSucceeds(there, w))
  {
    var s := Run(h, p, v, steps);
    var detached := DetachPlayer(h, s, check, t).0;
    RunInv(h, p, v, steps);
    SessionFollowsActivations(h, p, v, steps);
    DetachAchieves(h, s, check, t);
    DetachedIsKept(h, p, detached, waiting);
    RunKeepsInv(h, p, detached, waiting);
    DueReleaseEnds(h, Run(h, p, detached, waiting), now, w);
  }

  lemma DueReleaseEnds(h: Host, v: View, now: nat, w: Weather)
    requires Inv(h, v)
    ensures var (v', result) := ReleasePlayer(h, v, now, w);
            && (v'.session.None? <==> v.session.None? || (v.hosted && FlushSucceeds(v, w)))
            && (v.session.Some? && v.hosted && FlushSucceeds(v, w) ==> Gone(v, v'))
  {
  }

  // What reconciliation does to a session that has lost its lease: it is detached, not bound here any
  // more, and what is in memory and stored stays.
  lemma ReconcileAchieves(h: Host, v: View, now: nat)
    requires Inv(h, v) && LeaseLost(v)
    ensures var v' := Reconcile(h, v, now);
            && !v'.hosted && (v.hosted ==> v'.bound.None?)
            && v'.record == v.record && v'.running == v.running && v'.cell == v.cell && !v'.leased
            && v'.session == if HasState(v, {Detached}) then v.session
                             else Some(Session(Detached, NO_GATE, TimesActivated(v), now,
                                               now + h.detachedTtlSeconds * 1000))
  {
  }

  // ----- messages -----

  // The answer of a forwarded message is that of the first guard that fails, in every reachable state; only
  // a handled one has an effect.
  lemma AnswersOfForward(h: Host, v: View, m: Message, now: nat)
    requires Inv(h, v)
    ensures var (v', answer) := Forward(v, m, now);
            && (answer.PlayerNotFound? <==> v.session.None?)
            && (answer.SessionExpired? <==> HasState(v, {Detached, Unloading}))
            && (answer.HeldByOtherGame? <==> HasState(v, {Online}) && !v.leased)
            && (answer.InvalidArgument? <==> HasState(v, {Online}) && v.leased && m == Rename(""))
            && (!answer.Handled? ==> v' == v)
  {
  }

  // A handled echo leaves the record alone; a handled rename sets the name, marks the record as changed now
  // and touches nothing else of it.
  lemma EffectOfMessages(v: View, m: Message, now: nat)
    requires Forward(v, m, now).1.Handled?
    ensures var v' := Forward(v, m, now).0;
            && IsLoaded(v.record) && IsLoaded(v'.record)
            && v' == v.(record := v'.record, running := v'.running)
            && (m.Echo? ==> v'.record == v.record)
            && (m.Rename? ==> m.name != "" &&
                              v'.record.value == v.record.value.(dirty := true, lastDirtyMs := now,
                                                                 data := v.record.value.data.(displayName := m.name)))
  {
  }

  predicate Handles(v: View, step: Step) {
    step.ForwardStep? && Forward(v, step.message, step.now).1.Handled?
  }

  // How many messages were handled since the present session began.
  function HandledMessages(h: Host, p: PlayerId, v: View, steps: seq<Step>): nat {
    if steps == [] || Run(h, p, v, steps).session.None? then 0
    else
      var before, last := steps[..|steps| - 1], steps[|steps| - 1];
      HandledMessages(h, p, v, before) + if Handles(Run(h, p, v, before), last) then 1 else 0
  }

  // What one step does to the command count.
  predicate CountsStep(v: View, handled: bool, v': View) {
    v'.session.Some? ==>
      if v.running.Some? then v'.running == Some(v.running.value + if handled then 1 else 0)
      else v'.running == Some(0) && !handled
  }

  lemma CommandCountStep(h: Host, p: PlayerId, v: View, step: Step)
    requires Inv(h, v) && SessionOk(h, v)
    ensures CountsStep(v, Handles(v, step), Next(h, p, v, step))
  {
    if step.ActivateStep? {
      ActivationAchieves(h, p, v, step.gate, step.allowCreate, step.e);
      if v.running.None? {
        FreshStartsAtZero(h, p, v, step);
      }
    } else if Next(h, p, v, step).session.Some? {
      ActivationsAside(h, p, v, step);
    }
  }

  lemma FreshStartsAtZero(h: Host, p: PlayerId, v: View, step: Step)
    requires Inv(h, v) && step.ActivateStep? && v.running.None?
    ensures var v' := Next(h, p, v, step);
            v'.session.Some? ==> v'.running == Some(0)
  {
  }

  lemma ActivationsAside(h: Host, p: PlayerId, v: View, step: Step)
    requires Inv(h, v) && !step.ActivateStep? && Next(h, p, v, step).session.Some?
    ensures v.running.Some? && Next(h, p, v, step).session.Some?
    ensures Next(h, p, v, step).running == Some(v.running.value + if Handles(v, step) then 1 else 0)
  {
    NextInv(h, p, v, step);
  }

  // The runtime instance counts the messages handled in this session.
  ghost predicate IsCounted(h: Host, p: PlayerId, v: View, steps: seq<Step>) {
    var s := Run(h, p, v, steps);
    s.running == if s.session.Some? then Some(HandledMessages(h, p, v, steps)) else None
  }

  lemma CountedInRun(h: Host, p: PlayerId, v: View, steps: seq<Step>)
    requires Untouched(v) && steps != [] && IsCounted(h, p, v, steps[..|steps| - 1])
    ensures IsCounted(h, p, v, steps)
  {
    var before := steps[..|steps| - 1];
    RunInv(h, p, v, steps);
    SoundRun(h, p, v, before);
    CommandCountStep(h, p, Run(h, p, v, before), steps[|steps| - 1]);
  }

  lemma SoundRun(h: Host, p: PlayerId, v: View, steps: seq<Step>)
    requires Untouched(v)
    ensures Inv(h, Run(h, p, v, steps)) && SessionOk(h, Run(h, p, v, steps))
  {
    RunInv(h, p, v, steps);
    SessionFollowsActivations(h, p, v, steps);
  }

  // The command count of the runtime instance is the number of messages handled in this session, over
  // detachments, reconnections and recovered leases.
  lemma {:induction false} CommandsAreCounted(h: Host, p: PlayerId, v: View, steps: seq<Step>)
    requires Untouched(v)
    ensures IsCounted(h, p, v, steps)
  {
    if steps != [] {
      CommandsAreCounted(h, p, v, steps[..|steps| - 1]);
      CountedInRun(h, p, v, steps);
    }
  }

  // ----- records -----

  // What a load that works has found: the cached value, else the stored one.
  function Found(cell: Cell<Blob>, w: Weather): Option<Blob> {
    if cell.cached.Some? then cell.cached else if w.mariaUp then cell.table else None
  }

  // What is found is taken as it is, into a record that is now loaded. Where nothing is found the player is
  // new: at level one, with nothing gained and no login, created now, not saved yet and due for its first
  // write at once.
  lemma LoadAchieves(p: PlayerId, record: Option<Record>, cell: Cell<Blob>, allowCreate: bool, now: nat, w: Weather,
                     junk: PlayerData)
    requires Load(p, record, cell, allowCreate, now, w, junk).2.Success?
    ensures var r := Load(p, record, cell, allowCreate, now, w, junk).0;
            && r.loaded && r.lastLoadMs == now
            && match Found(cell, w)
               case Some(value) =>
                 && value == Encoded(r.data)
                 && (record.None? ==> !r.dirty && !r.pendingInitialPersist && r.loadCount == 1)
                 && (record.Some? ==> r.dirty == record.value.dirty && r.loadCount == record.value.loadCount + 1)
               case None =>
                 && r.dirty && r.pendingInitialPersist && r.lastDirtyMs == now
                 && (r.createdWithoutMaria <==> !w.mariaUp)
                 && r.data.playerId == p && r.data.createdAtMs == now && r.data.level == 1
                 && r.data.experience == 0 && r.data.loginCount == 0 && r.data.lastLoginAtMs == 0
                 && r.data.opaqueBlob == [] && r.data.displayName == "player_" + TextForms.ToText(p)
  {
  }

  // New players have different names.
  lemma DefaultNamesDiffer(p: PlayerId, q: PlayerId, now: nat, later: nat)
    ensures DefaultData(p, now).displayName == DefaultData(q, later).displayName <==> p == q
  {
    assert DefaultData(p, now).displayName[|"player_"|..] == TextForms.ToText(p);
    assert DefaultData(q, later).displayName[|"player_"|..] == TextForms.ToText(q);
    TextForms.ToTextInjective(p, q);
  }

  // A login of a loaded player is counted and dated, a rename sets the name; both mark the record as changed
  // now and touch nothing else. Without a loaded record nothing happens.
  lemma RecordChanges(record: Option<Record>, name: string, now: nat)
    ensures var (touched, result) := TouchLogin(record, now);
            && (result.Success? <==> IsLoaded(record)) && (result.Failure? ==> touched == record)
            && (result.Success? ==>
                  var d := record.value.data;
                  touched == Some(record.value.(dirty := true, lastDirtyMs := now,
                                                data := d.(loginCount := d.loginCount + 1, lastLoginAtMs := now))))
    ensures var (renamed, result) := SetDisplayName(record, name, now);
            && (result.Success? <==> IsLoaded(record)) && (result.Failure? ==> renamed == record)
            && (result.Success? ==>
                  renamed == Some(record.value.(dirty := true, lastDirtyMs := now,
                                                data := record.value.data.(displayName := name))))
  {
  }

  // ----- telling the gate -----

  // A player that was activated through a full gate and has lost its lease without having left in between is
  // the one whose gate is told when the loss is noticed.
  lemma LostPlayersAreTold(h: Host, p: PlayerId, v: View, steps: seq<Step>)
    requires Untouched(v) && LeaseLost(Run(h, p, v, steps))
    ensures var s := Run(h, p, v, steps);
            Sessions.Kicks(s) <==>
              HasState(s, {Online}) &&
              (match LastActivation(h, p, v, steps)
               case Some(ActivateStep(gate, _, _)) =>
                 gate.serviceType > 0 && gate.instanceId > 0 && gate.sessionId > 0
               case _ => false)
  {
    SessionFollowsActivations(h, p, v, steps);
  }
}
