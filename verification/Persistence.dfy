// The flush scheduler: a scan over the loaded players that writes the due ones, with a backoff per
// player after failures.
module Persistence {
  import opened Common
  import opened Storage
  import opened PlayerView
  import opened GameServices
  import Leases
  import LeaseProtocol
  import Sessions = SessionService

  // ----- the backoff -----

  type Seconds = n: nat | n < TWO_TO_32
  datatype Timing = Timing(landingMinSeconds: Seconds, landingSeconds: Seconds)

  const MAX_MULTIPLIER := 8
  const DELAY_WITHOUT_DATASET := 5000

  function Min(a: nat, b: nat): nat {
    if a < b then a else b
  }

  // The delay after the n-th failure in a row: the shortest landing time doubled with every failure
  // after the first, at most three times, and never more than the landing time.
  function RetryDelay(timing: Option<Timing>, n: nat): nat {
    if timing.None? then DELAY_WITHOUT_DATASET
    else
      var doublings := if n == 0 then 0 else Min(n - 1, 3);
      Min(timing.value.landingMinSeconds * 1000 * Pow2(doublings), timing.value.landingSeconds * 1000)
  }

  // The loop of the source computes it, and no product leaves 64 bits for any 32-bit settings.
  method ComputeRetryDelayMs(timing: Option<Timing>, failures: nat) returns (delay: nat)
    ensures delay == RetryDelay(timing, failures)
    ensures delay < TWO_TO_64
  {
    if timing.None? {
      return DELAY_WITHOUT_DATASET;
    }
    var base := timing.value.landingMinSeconds * 1000;
    var max := timing.value.landingSeconds * 1000;
    var multiplier, i := 1, 1;
    while i < failures && multiplier < MAX_MULTIPLIER
      invariant 1 <= i <= 4 && multiplier == Pow2(i - 1) && (i <= failures || i == 1)
      decreases 4 - i
    {
      multiplier := multiplier * 2;
      i := i + 1;
    }
    PowersOfTwo();
    assert multiplier <= 8;
    assert base * multiplier <= base * 8 < TWO_TO_64;
    delay := if base * multiplier < max then base * multiplier else max;
  }

  lemma PowersOfTwo()
    ensures Pow2(0) == 1 && Pow2(1) == 2 && Pow2(2) == 4 && Pow2(3) == 8
  {
  }

  // More failures never mean a shorter wait, the wait never exceeds the landing time, and from the
  // fourth failure on it stays the same.
  lemma RetryDelayGrows(timing: Option<Timing>, m: nat, n: nat)
    requires m <= n
    ensures RetryDelay(timing, m) <= RetryDelay(timing, n)
    ensures timing.Some? ==> RetryDelay(timing, n) <= timing.value.landingSeconds * 1000
    ensures 4 <= m ==> RetryDelay(timing, m) == RetryDelay(timing, n)
  {
    PowersOfTwo();
    if timing.Some? {
      var base := timing.value.landingMinSeconds * 1000;
      var i, j := if m == 0 then 0 else Min(m - 1, 3), if n == 0 then 0 else Min(n - 1, 3);
      assert Pow2(i) <= Pow2(j);
      assert base * Pow2(i) <= base * Pow2(j);
    }
  }

  // The law of the delay: it starts at the shortest landing time, each of the next three failures doubles it,
  // and the landing time cuts it off; without a dataset it is five seconds.
  lemma RetryDelayDoubles(timing: Option<Timing>, n: nat)
    requires 1 <= n
    ensures timing.Some? ==>
              var shortest, longest := timing.value.landingMinSeconds * 1000, timing.value.landingSeconds * 1000;
              && RetryDelay(timing, 1) == (if shortest < longest then shortest else longest)
              && RetryDelay(timing, n + 1) ==
                 (if n >= 4 then RetryDelay(timing, n)
                  else if 2 * RetryDelay(timing, n) < longest then 2 * RetryDelay(timing, n)
                  else longest)
    ensures timing.None? ==> RetryDelay(timing, n) == 5000
  {
    PowersOfTwo();
    if timing.Some? && n < 4 {
      assert Pow2(n) == 2 * Pow2(n - 1);
    }
  }

  // ----- which players are due -----

  datatype Retry = Retry(failures: nat, nextRetryMs: nat, lastFailureMs: nat)

  predicate InBackoff(retry: Option<Retry>, now: nat) {
    retry.Some? && retry.value.nextRetryMs > now
  }

  predicate ShouldFlush(record: Record, session: Option<Session>, retry: Option<Retry>, timing: Option<Timing>,
                        now: nat) {
    && record.loaded && record.dirty
    && (record.pendingInitialPersist ||
        (timing.Some? && !InBackoff(retry, now) &&
         ((session.Some? && session.value.state.Detached?) || record.lastDirtyMs == 0 ||
          (now >= record.lastDirtyMs && now - record.lastDirtyMs >= timing.value.landingMinSeconds * 1000))))
  }

  // What a scan looks at and can change of a player.
  datatype Tracked = Tracked(
    session: Option<Session>, record: Option<Record>, leased: bool, cell: Cell<Blob>, retry: Option<Retry>)

  predicate Due(t: Tracked, timing: Option<Timing>, now: nat) {
    t.record.Some? && t.leased && ShouldFlush(t.record.value, t.session, t.retry, timing, now)
  }

  // What one attempt does to the retry state.
  function AfterAttempt(retry: Option<Retry>, result: Result, timing: Option<Timing>, now: nat): Option<Retry> {
    if result.Success? then None
    else
      var failures := (if retry.Some? then retry.value.failures else 0) + 1;
      Some(Retry(failures, now + RetryDelay(timing, failures), now))
  }

  // ----- the retry state over any scans -----

  // One flush attempt: whether it worked and when it was.
  datatype Attempt = Attempt(ok: bool, at: nat)

  function FailuresInARow(attempts: seq<Attempt>): nat {
    if attempts == [] || attempts[|attempts| - 1].ok then 0 else FailuresInARow(attempts[..|attempts| - 1]) + 1
  }

  function RetryAfter(attempts: seq<Attempt>, timing: Option<Timing>): Option<Retry> {
    if attempts == [] then None
    else
      var last := attempts[|attempts| - 1];
      var before := RetryAfter(attempts[..|attempts| - 1], timing);
      AfterAttempt(before, if last.ok then Success else STORE_FAILED, timing, last.at)
  }

  // After n failures in a row the n-th delay runs from the last of them; after a success, or without any
  // attempt, there is no retry state.
  lemma {:induction false} RetryCountsFailuresInARow(attempts: seq<Attempt>, timing: Option<Timing>)
    ensures var n := FailuresInARow(attempts);
            RetryAfter(attempts, timing) ==
            if n == 0 then None
            else Some(Retry(n, attempts[|attempts| - 1].at + RetryDelay(timing, n), attempts[|attempts| - 1].at))
  {
    if attempts != [] && !attempts[|attempts| - 1].ok {
      RetryCountsFailuresInARow(attempts[..|attempts| - 1], timing);
    }
  }

  // What happens to one player's retry state: a scan sees the player, with the time and the servers of the
  // scan, or an operator resets the state.
  datatype Event = Sight(found: Tracked, now: nat, w: Weather) | Reset

  function RetryOver(events: seq<Event>, timing: Option<Timing>): Option<Retry> {
    if events == [] || events[|events| - 1].Reset? then None
    else
      var before, s := RetryOver(events[..|events| - 1], timing), events[|events| - 1];
      Visit(s.found.(retry := before), timing, s.now, s.w).0.retry
  }

  // The attempts since the last reset.
  function AttemptsIn(events: seq<Event>, timing: Option<Timing>): seq<Attempt> {
    if events == [] || events[|events| - 1].Reset? then []
    else
      var before, s := events[..|events| - 1], events[|events| - 1];
      var (_, attempted, ok) := Visit(s.found.(retry := RetryOver(before, timing)), timing, s.now, s.w);
      AttemptsIn(before, timing) + if attempted then [Attempt(ok, s.now)] else []
  }

  lemma {:induction false} RetryIsThatOfTheAttempts(events: seq<Event>, timing: Option<Timing>)
    ensures RetryOver(events, timing) == RetryAfter(AttemptsIn(events, timing), timing)
  {
    if events != [] && events[|events| - 1].Sight? {
      var before := events[..|events| - 1];
      RetryIsThatOfTheAttempts(before, timing);
      var last := LastSight(events, timing);
      if last.Some? {
        RetrySnoc(AttemptsIn(before, timing), last.value, timing);
      } else {
        assert AttemptsIn(before, timing) + [] == AttemptsIn(before, timing);
      }
    }
  }

  // Over any scans and resets, whatever happens to the player in between: with n failed attempts since the
  // last reset or attempt that worked, the retry state counts n and waits the n-th delay from the last.
  lemma RetryOverScansIsExact(events: seq<Event>, timing: Option<Timing>)
    ensures var attempts := AttemptsIn(events, timing);
            var n := FailuresInARow(attempts);
            RetryOver(events, timing) ==
            if n == 0 then None
            else Some(Retry(n, attempts[|attempts| - 1].at + RetryDelay(timing, n), attempts[|attempts| - 1].at))
  {
    RetryIsThatOfTheAttempts(events, timing);
    RetryCountsFailuresInARow(AttemptsIn(events, timing), timing);
  }

  // The last scan added an attempt, with its effect on the retry state, or neither.
  lemma LastSight(events: seq<Event>, timing: Option<Timing>) returns (last: Option<Attempt>)
    requires events != [] && events[|events| - 1].Sight?
    ensures var before := events[..|events| - 1];
            && AttemptsIn(events, timing) == AttemptsIn(before, timing) + (if last.Some? then [last.value] else [])
            && RetryOver(events, timing) ==
               if last.None? then RetryOver(before, timing)
               else AfterAttempt(RetryOver(before, timing), if last.value.ok then Success else STORE_FAILED,
                                 timing, last.value.at)
  {
    var before, s := events[..|events| - 1], events[|events| - 1];
    var (_, attempted, ok) := Visit(s.found.(retry := RetryOver(before, timing)), timing, s.now, s.w);
    VisitKeepsRetry(s.found.(retry := RetryOver(before, timing)), timing, s.now, s.w);
    last := if attempted then Some(Attempt(ok, s.now)) else None;
  }

  lemma VisitKeepsRetry(t: Tracked, timing: Option<Timing>, now: nat, w: Weather)
    ensures var (t', attempted, ok) := Visit(t, timing, now, w);
            t'.retry == if !attempted then t.retry
                        else AfterAttempt(t.retry, if ok then Success else STORE_FAILED, timing, now)
  {
  }

  lemma RetrySnoc(attempts: seq<Attempt>, last: Attempt, timing: Option<Timing>)
    ensures RetryAfter(attempts + [last], timing) ==
            AfterAttempt(RetryAfter(attempts, timing), if last.ok then Success else STORE_FAILED, timing, last.at)
  {
    assert (attempts + [last])[..|attempts|] == attempts;
  }

  // ----- a whole scan -----

  type AllTracked = PlayerId -> Tracked

  // One player's part in a scan, and whether its flush was attempted and worked.
  function Visit(t: Tracked, timing: Option<Timing>, now: nat, w: Weather): (Tracked, bool, bool) {
    if !Due(t, timing, now) then (t, false, false)
    else
      var (record, cell, result) := Flush(t.record, t.cell, now, w);
      (t.(record := record, cell := cell, retry := AfterAttempt(t.retry, result, timing, now)), true, result.Success?)
  }

  function Count(order: seq<PlayerId>, f: PlayerId -> bool): nat {
    if order == [] then 0 else Count(order[..|order| - 1], f) + if f(order[|order| - 1]) then 1 else 0
  }

  lemma {:induction false} CountSame(order: seq<PlayerId>, f: PlayerId -> bool, g: PlayerId -> bool)
    requires forall p :: p in order ==> f(p) == g(p)
    ensures Count(order, f) == Count(order, g)
  {
    if order != [] {
      CountSame(order[..|order| - 1], f, g);
    }
  }

  predicate IsPending(record: Option<Record>) {
    record.Some? && record.value.pendingInitialPersist
  }

  predicate IsWithoutMaria(record: Option<Record>) {
    record.Some? && record.value.createdWithoutMaria
  }

  function Pending(players: map<PlayerId, Record>): PlayerId -> bool {
    (p: PlayerId) => IsPending(Lookup(players, p))
  }

  function WithoutMaria(players: map<PlayerId, Record>): PlayerId -> bool {
    (p: PlayerId) => IsWithoutMaria(Lookup(players, p))
  }

  // One player further, with only that player's record changed.
  lemma CountsStep(order: seq<PlayerId>, i: nat, players: map<PlayerId, Record>, players': map<PlayerId, Record>)
    requires i < |order| && Sessions.Distinct(order) && order[i] in players'
    requires forall q :: q != order[i] ==> Lookup(players', q) == Lookup(players, q)
    ensures Count(order[..i + 1], Pending(players')) ==
            Count(order[..i], Pending(players)) + if players'[order[i]].pendingInitialPersist then 1 else 0
    ensures Count(order[..i + 1], WithoutMaria(players')) ==
            Count(order[..i], WithoutMaria(players)) + if players'[order[i]].createdWithoutMaria then 1 else 0
  {
    Sessions.SliceSnoc(order, i);
    assert order[..i + 1][..i] == order[..i];
    forall q | q in order[..i]
      ensures Lookup(players', q) == Lookup(players, q)
    {
    }
    CountSame(order[..i], Pending(players'), Pending(players));
    CountSame(order[..i], WithoutMaria(players'), WithoutMaria(players));
  }

  // A visit as a value: what it makes of a player's state, and whether it attempted a flush that worked.
  type Rule = (PlayerId, Tracked) -> (Tracked, bool, bool)

  function VisitRule(timing: Option<Timing>, now: nat, c: Connections, weather: PlayerId -> Weather): Rule {
    (p: PlayerId, t: Tracked) => Visit(t, timing, now, Under(c, weather(p)))
  }

  ghost function Succeeded(start: AllTracked, rule: Rule): PlayerId -> bool {
    (p: PlayerId) => rule(p, start(p)).1 && rule(p, start(p)).2
  }

  ghost function Failed(start: AllTracked, rule: Rule): PlayerId -> bool {
    (p: PlayerId) => rule(p, start(p)).1 && !rule(p, start(p)).2
  }

  // A scan in progress: each player in done was visited once, starting from start.
  ghost predicate Scanned(start: AllTracked, after: AllTracked, done: seq<PlayerId>, rule: Rule) {
    forall p: PlayerId :: after(p) == if p in done then rule(p, start(p)).0 else start(p)
  }

  lemma ScannedStep(start: AllTracked, before: AllTracked, after: AllTracked, order: seq<PlayerId>, i: nat, rule: Rule)
    requires i < |order| && Sessions.Distinct(order)
    requires Scanned(start, before, order[..i], rule)
    requires after(order[i]) == rule(order[i], before(order[i])).0
    requires forall q: PlayerId :: q != order[i] ==> after(q) == before(q)
    ensures before(order[i]) == start(order[i])
    ensures Scanned(start, after, order[..i + 1], rule)
  {
    Sessions.SliceSnoc(order, i);
  }

  // The counts a scan keeps while it runs.
  datatype Tally = Tally(tracked: nat, pending: nat, withoutMaria: nat, flushed: nat, failed: nat)

  const NOTHING := Tally(0, 0, 0, 0, 0)

  function Tallied(t: Tally, r: Record, attempted: bool, ok: bool): Tally {
    Tally(t.tracked + 1,
          t.pending + if r.pendingInitialPersist && !ok then 1 else 0,
          t.withoutMaria + if r.createdWithoutMaria && !ok then 1 else 0,
          t.flushed + if attempted && ok then 1 else 0,
          t.failed + if attempted && !ok then 1 else 0)
  }

  // The counts are right for the players in done, with the records as they are now.
  ghost predicate TallyOf(t: Tally, start: AllTracked, players: map<PlayerId, Record>, done: seq<PlayerId>,
                          rule: Rule) {
    t == Tally(|done|, Count(done, Pending(players)), Count(done, WithoutMaria(players)),
               Count(done, Succeeded(start, rule)), Count(done, Failed(start, rule)))
  }

  // A scan that has dealt with the players in done.
  ghost predicate Progress(start: AllTracked, after: AllTracked, players: map<PlayerId, Record>, done: seq<PlayerId>,
                           rule: Rule, t: Tally) {
    Scanned(start, after, done, rule) && TallyOf(t, start, players, done, rule)
  }

  lemma ProgressNone(start: AllTracked, players: map<PlayerId, Record>, order: seq<PlayerId>, rule: Rule)
    ensures Progress(start, start, players, order[..0], rule, NOTHING)
  {
  }

  // A visit leaves the flags alone unless it worked, and then clears them.
  predicate FlagsFollow(r: Record, r': Record, ok: bool) {
    && r'.pendingInitialPersist == (r.pendingInitialPersist && !ok)
    && r'.createdWithoutMaria == (r.createdWithoutMaria && !ok)
  }

  lemma TallyStep(t: Tally, start: AllTracked, order: seq<PlayerId>, i: nat, rule: Rule,
                  players: map<PlayerId, Record>, players': map<PlayerId, Record>)
    requires i < |order| && Sessions.Distinct(order) && order[i] in players && order[i] in players'
    requires TallyOf(t, start, players, order[..i], rule)
    requires forall q :: q != order[i] ==> Lookup(players', q) == Lookup(players, q)
    requires var (_, attempted, ok) := rule(order[i], start(order[i]));
             FlagsFollow(players[order[i]], players'[order[i]], ok) && (ok ==> attempted)
    ensures var (_, attempted, ok) := rule(order[i], start(order[i]));
            TallyOf(Tallied(t, players[order[i]], attempted, ok), start, players', order[..i + 1], rule)
  {
    CountsStep(order, i, players, players');
    assert order[..i + 1][..i] == order[..i];
  }

  // The step of a scan from what one visit did to everybody's state.
  lemma ScanStepped(start: AllTracked, before: AllTracked, after: AllTracked, order: seq<PlayerId>, i: nat, t: Tally,
                    rule: Rule, players: map<PlayerId, Record>, players': map<PlayerId, Record>)
    requires i < |order| && Sessions.Distinct(order) && order[i] in players && order[i] in players'
    requires Progress(start, before, players, order[..i], rule, t)
    requires forall q: PlayerId :: before(q).record == Lookup(players, q)
    requires forall q: PlayerId :: after(q).record == Lookup(players', q)
    requires forall q: PlayerId :: q != order[i] ==> after(q) == before(q)
    requires var (visited, attempted, ok) := rule(order[i], before(order[i]));
             && after(order[i]) == visited && (ok ==> attempted)
             && FlagsFollow(players[order[i]], players'[order[i]], ok)
    ensures var (_, attempted, ok) := rule(order[i], before(order[i]));
            Progress(start, after, players', order[..i + 1], rule, Tallied(t, players[order[i]], attempted, ok))
  {
    ScannedStep(start, before, after, order, i, rule);
    forall q | q != order[i]
      ensures Lookup(players', q) == Lookup(players, q)
    {
      assert after(q) == before(q);
    }
    TallyStep(t, start, order, i, rule, players, players');
  }

  // What a scan leaves of a player it flushed: the stored value is the record's, nothing is pending and
  // the retry state is gone. A failed flush leaves the record, and a retry time within the landing time.
  lemma VisitMeans(t: Tracked, timing: Option<Timing>, now: nat, w: Weather)
    ensures var (t', attempted, ok) := Visit(t, timing, now, w);
            && (ok ==> attempted && t'.retry.None? && t'.record.Some? && !t'.record.value.dirty &&
                       t'.cell.table == Some(Encoded(t'.record.value.data)))
            && (!ok ==> t' == t.(retry := t'.retry))
            && (attempted && !ok && timing.Some? ==>
                  t'.retry.Some? && now <= t'.retry.value.nextRetryMs <= now + timing.value.landingSeconds * 1000)
            && (attempted ==> t.leased && t.record.Some? && t.record.value.dirty)
            && (attempted && InBackoff(t.retry, now) ==> t.record.value.pendingInitialPersist)
  {
    var (t', attempted, ok) := Visit(t, timing, now, w);
    if attempted && !ok {
      RetryDelayGrows(timing, t'.retry.value.failures, t'.retry.value.failures);
    }
  }

  // A player whose record has changes, under a lease of this game.
  predicate Unsaved(t: Tracked) {
    t.leased && t.record.Some? && t.record.value.loaded && t.record.value.dirty
  }

  // The player is not kept waiting: it has gone, its change has no time, or the change is old enough.
  predicate IsRipe(t: Tracked, landingMin: nat, now: nat)
    requires t.record.Some?
  {
    || (t.session.Some? && t.session.value.state.Detached?)
    || t.record.value.lastDirtyMs == 0 || t.record.value.lastDirtyMs + 1000 * landingMin <= now
  }

  // A flush that worked: the data are stored, and the record is clean with nothing pending.
  predicate IsSaved(t: Tracked, t': Tracked, now: nat) {
    && t.record.Some? && t'.record.Some? && t'.session == t.session && t'.leased == t.leased && t'.retry.None?
    && t'.cell.table == Some(Encoded(t.record.value.data))
    && var r, r' := t.record.value, t'.record.value;
       && !r'.dirty && !r'.pendingInitialPersist && !r'.createdWithoutMaria
       && r'.data == r.data && r'.loaded && r'.lastDirtyMs == 0 && r'.lastFlushMs == now
       && r'.flushCount == r.flushCount + 1 && r'.loadCount == r.loadCount && r'.lastLoadMs == r.lastLoadMs
  }

  // A flush that did not: one more failure in a row, and a time before which there is no other attempt.
  predicate IsPutOff(t: Tracked, t': Tracked, timing: Option<Timing>, now: nat) {
    var n := (if t.retry.Some? then t.retry.value.failures else 0) + 1;
    t' == t.(retry := Some(Retry(n, now + RetryDelay(timing, n), now)))
  }

  // What a scan has to do with a player it visits, told from the state before it and the clock. A pending
  // player is always written; one that is not waits for the end of its backoff and until it is ripe. A
  // write ends with Maria's answer, and whoever is not written stays as he is.
  lemma ScanDoes(start: AllTracked, after: AllTracked, done: seq<PlayerId>, timing: Option<Timing>, now: nat,
                 c: Connections, weather: PlayerId -> Weather, p: PlayerId)
    requires Scanned(start, after, done, VisitRule(timing, now, c, weather)) && p in done
    ensures var t, t', works := start(p), after(p), MariaStatus(Under(c, weather(p))).Ok?;
            && (Unsaved(t) && t.record.value.pendingInitialPersist ==>
                  if works then IsSaved(t, t', now) else IsPutOff(t, t', timing, now))
            && (Unsaved(t) && !t.record.value.pendingInitialPersist && timing.Some? ==>
                  if (t.retry.Some? && now < t.retry.value.nextRetryMs) ||
                     !IsRipe(t, timing.value.landingMinSeconds, now)
                  then t' == t
                  else if works then IsSaved(t, t', now) else IsPutOff(t, t', timing, now))
            && (Unsaved(t) && !t.record.value.pendingInitialPersist && timing.None? ==> t' == t)
            && (!Unsaved(t) ==> t' == t)
  {
    VisitDoes(start(p), timing, now, Under(c, weather(p)));
  }

  lemma VisitDoes(t: Tracked, timing: Option<Timing>, now: nat, w: Weather)
    ensures var (t', attempted, ok), works := Visit(t, timing, now, w), MariaStatus(w).Ok?;
            && (Unsaved(t) && t.record.value.pendingInitialPersist ==>
                  attempted && if works then IsSaved(t, t', now) else IsPutOff(t, t', timing, now))
            && (Unsaved(t) && !t.record.value.pendingInitialPersist && timing.Some? ==>
                  if (t.retry.Some? && now < t.retry.value.nextRetryMs) ||
                     !IsRipe(t, timing.value.landingMinSeconds, now)
                  then t' == t && !attempted
                  else attempted && if works then IsSaved(t, t', now) else IsPutOff(t, t', timing, now))
            && (Unsaved(t) && !t.record.value.pendingInitialPersist && timing.None? ==> t' == t && !attempted)
            && (!Unsaved(t) ==> t' == t && !attempted)
            && (ok <==> attempted && works)
  {
  }

  // ----- the service -----

  datatype Stats = Stats(
    scans: nat, tracked: nat, pendingInitialPersist: nat, createdWithoutMaria: nat,
    attempts: nat, successes: nat, failures: nat)

  function Counted(stats: Stats, t: Tally): Stats {
    stats.(attempts := stats.attempts + t.flushed + t.failed,
           successes := stats.successes + t.flushed, failures := stats.failures + t.failed)
  }

  // The players whose record is loaded in some order, each once.
  ghost predicate Lists(order: seq<PlayerId>, players: map<PlayerId, Record>) {
    && Sessions.Distinct(order)
    && (forall i :: 0 <= i < |order| ==> order[i] in players && players[order[i]].loaded)
    && (forall p {:trigger p in order} :: p in players && players[p].loaded ==> p in order)
  }

  function CountedScan(stats: Stats): Stats {
    stats.(scans := stats.scans + 1)
  }

  function Published(stats: Stats, t: Tally): Stats {
    stats.(tracked := t.tracked, pendingInitialPersist := t.pending, createdWithoutMaria := t.withoutMaria)
  }

  lemma CountedOneMore(was: Stats, t: Tally, r: Record, attempted: bool, ok: bool)
    requires ok ==> attempted
    ensures Counted(Counted(was, t), Tally(0, 0, 0, if ok then 1 else 0, if attempted && !ok then 1 else 0)) ==
            Counted(was, Tallied(t, r, attempted, ok))
  {
  }

  class PlayerPersistenceService {
    const timing: Option<Timing>
    const session: Sessions.PlayerSessionService
    var retries: map<PlayerId, Retry>
    var stats: Stats

    ghost predicate Valid()
      reads this`stats
    {
      stats.attempts == stats.successes + stats.failures
    }

    constructor (timing: Option<Timing>, session: Sessions.PlayerSessionService)
      ensures Valid() && this.timing == timing && this.session == session
      ensures retries == map[] && stats == Stats(0, 0, 0, 0, 0, 0, 0)
    {
      this.timing, this.session := timing, session;
      retries, stats := map[], Stats(0, 0, 0, 0, 0, 0, 0);
    }

    function RetryOf(p: PlayerId): Option<Retry>
      reads this`retries
    {
      Lookup(retries, p)
    }

    function TrackedOf(p: PlayerId): Tracked
      reads this`retries, session, session.repository, session.repository.storage, session.lease
    {
      Tracked(Lookup(session.players, p), session.repository.RecordOf(p), p in session.lease.leases,
              session.repository.CellOf(p), RetryOf(p))
    }

    ghost function AllNow(): AllTracked
      reads this`retries, session, session.repository, session.repository.storage, session.lease
    {
      var all := imap p: PlayerId :: TrackedOf(p);
      (p: PlayerId) => all[p]
    }

    // What a scan at this moment does to each player.
    ghost function RuleOf(now: nat, weather: PlayerId -> Weather): Rule
      reads session.repository.storage
    {
      VisitRule(timing, now, session.repository.storage.ConnectionsNow(), weather)
    }

    // The rule of a scan under connections c, which are those of now.
    ghost predicate Obeys(rule: Rule, now: nat, c: Connections, weather: PlayerId -> Weather)
      reads session.repository.storage
    {
      c == session.repository.storage.ConnectionsNow() && rule == VisitRule(timing, now, c, weather)
    }

    // One player of a scan: flushed if due, with the counters and the retry state kept.
    method ScanOne(p: PlayerId, now: nat, weather: PlayerId -> Weather, ghost c: Connections, ghost rule: Rule)
      returns (attempted: bool, ok: bool)
      requires p in session.repository.players && Obeys(rule, now, c, weather)
      modifies this`retries, this`stats
      modifies session.repository`players, session.repository.storage`redis, session.repository.storage`table
      ensures c == session.repository.storage.ConnectionsNow()
      ensures (TrackedOf(p), attempted, ok) == rule(p, old(TrackedOf(p))) && (ok ==> attempted)
      ensures stats == Counted(old(stats), Tally(0, 0, 0, if ok then 1 else 0, if attempted && !ok then 1 else 0))
      ensures session.repository.players.Keys == old(session.repository.players).Keys
      ensures FlagsFollow(old(session.repository.players)[p], session.repository.players[p], ok)
      ensures forall q :: q != p ==> TrackedOf(q) == old(TrackedOf(q))
    {
      attempted, ok := false, false;
      var record := session.repository.players[p];
      if !session.lease.IsHeldLocally(p) {
        return;
      }
      var s := Lookup(session.players, p);
      if !ShouldFlush(record, s, RetryOf(p), timing, now) {
        return;
      }
      attempted := true;
      var result := session.repository.FlushPlayer(p, now, weather(p));
      ok := result.Success?;
      NoteResult(p, ok, now);
    }

    // The counters and the retry state after an attempt.
    method NoteResult(p: PlayerId, ok: bool, now: nat)
      modifies this`retries, this`stats
      ensures RetryOf(p) == AfterAttempt(old(RetryOf(p)), if ok then Success else STORE_FAILED, timing, now)
      ensures forall q :: q != p ==> RetryOf(q) == old(RetryOf(q))
      ensures stats == Counted(old(stats), Tally(0, 0, 0, if ok then 1 else 0, if ok then 0 else 1))
    {
      if ok {
        stats := stats.(attempts := stats.attempts + 1, successes := stats.successes + 1);
        retries := retries - {p};
      } else {
        stats := stats.(attempts := stats.attempts + 1, failures := stats.failures + 1);
        var failures := (if p in retries then retries[p].failures else 0) + 1;
        var delay := ComputeRetryDelayMs(timing, failures);
        retries := retries[p := Retry(failures, now + delay, now)];
      }
    }

    // A flagged record counts when it is seen, and no longer once its flush has worked.
    method Recount(tally: Tally, record: Record, attempted: bool, ok: bool) returns (tally': Tally)
      requires ok ==> attempted
      ensures tally' == Tallied(tally, record, attempted, ok)
    {
      var pending, withoutMaria := tally.pending, tally.withoutMaria;
      if record.pendingInitialPersist {
        pending := pending + 1;
      }
      if record.createdWithoutMaria {
        withoutMaria := withoutMaria + 1;
      }
      if ok && record.pendingInitialPersist && pending > 0 {
        pending := pending - 1;
      }
      if ok && record.createdWithoutMaria && withoutMaria > 0 {
        withoutMaria := withoutMaria - 1;
      }
      tally' := Tally(tally.tracked + 1, pending, withoutMaria,
                      tally.flushed + if ok then 1 else 0, tally.failed + if attempted && !ok then 1 else 0);
    }

    // One player of a scan that is under way; the counts are those of the records as they are now.
    method ScanNext(ghost was: Stats, ghost start: AllTracked, order: seq<PlayerId>, i: nat, tally: Tally,
                    now: nat, weather: PlayerId -> Weather, ghost c: Connections, ghost rule: Rule)
      returns (tally': Tally)
      requires i < |order| && Sessions.Distinct(order) && order[i] in session.repository.players
      requires Obeys(rule, now, c, weather)
      requires Progress(start, AllNow(), session.repository.players, order[..i], rule, tally) &&
               stats == Counted(was, tally)
      modifies this`retries, this`stats
      modifies session.repository`players, session.repository.storage`redis, session.repository.storage`table
      ensures c == session.repository.storage.ConnectionsNow()
      ensures session.repository.players.Keys == old(session.repository.players).Keys
      ensures Progress(start, AllNow(), session.repository.players, order[..i + 1], rule, tally')
      ensures stats == Counted(was, tally')
    {
      var p := order[i];
      ghost var before, players := AllNow(), session.repository.players;
      var record := session.repository.players[p];
      var attempted, ok := ScanOne(p, now, weather, c, rule);
      tally' := Recount(tally, record, attempted, ok);
      CountedOneMore(was, tally, record, attempted, ok);
      ScanStepped(start, before, AllNow(), order, i, tally, rule, players, session.repository.players);
    }

    // The loop of a scan.
    method ScanAll(order: seq<PlayerId>, now: nat, weather: PlayerId -> Weather, ghost c: Connections, ghost rule: Rule)
      returns (tally: Tally)
      requires Lists(order, session.repository.players) && Obeys(rule, now, c, weather)
      modifies this`retries, this`stats
      modifies session.repository`players, session.repository.storage`redis, session.repository.storage`table
      ensures c == session.repository.storage.ConnectionsNow()
      ensures session.repository.players.Keys == old(session.repository.players).Keys
      ensures Progress(old(AllNow()), AllNow(), session.repository.players, order, rule, tally)
      ensures stats == Counted(old(stats), tally)
    {
      ghost var start, was := AllNow(), stats;
      ghost var loaded := session.repository.players.Keys;
      tally := NOTHING;
      ProgressNone(start, session.repository.players, order, rule);
      for i := 0 to |order|
        invariant session.repository.players.Keys == loaded
        invariant Obeys(rule, now, c, weather)
        invariant Progress(start, AllNow(), session.repository.players, order[..i], rule, tally)
        invariant stats == Counted(was, tally)
      {
        tally := ScanNext(was, start, order, i, tally, now, weather, c, rule);
      }
      assert order[..|order|] == order;
    }

    // A scan over the loaded players, in the order the repository gives them: exactly the due players
    // are flushed, and the published counts are those of the flags still set afterwards.
    method FlushDuePlayersOnce(order: seq<PlayerId>, now: nat, weather: PlayerId -> Weather)
      returns (flushed: nat, tally: Tally)
      requires Valid() && Lists(order, session.repository.players)
      modifies this`retries, this`stats
      modifies session.repository`players, session.repository.storage`redis, session.repository.storage`table
      ensures Valid()
      ensures Progress(old(AllNow()), AllNow(), session.repository.players, order, old(RuleOf(now, weather)), tally)
      ensures flushed == tally.flushed
      ensures stats == Published(Counted(CountedScan(old(stats)), tally), tally)
      ensures stats.tracked == |order| == tally.tracked && stats.scans == old(stats.scans) + 1
      ensures stats.pendingInitialPersist == tally.pending && stats.createdWithoutMaria == tally.withoutMaria
      ensures stats.successes == old(stats.successes) + flushed && stats.failures == old(stats.failures) + tally.failed
    {
      ghost var c, rule := session.repository.storage.ConnectionsNow(), RuleOf(now, weather);
      CountScan();
      tally := ScanAll(order, now, weather, c, rule);
      Publish(tally);
      flushed := tally.flushed;
    }

    method CountScan()
      modifies this`stats
      ensures stats == CountedScan(old(stats)) && AllNow() == old(AllNow())
    {
      stats := stats.(scans := stats.scans + 1);
    }

    method Publish(tally: Tally)
      modifies this`stats
      ensures stats == Published(old(stats), tally) && AllNow() == old(AllNow())
    {
      stats := stats.(tracked := tally.tracked, pendingInitialPersist := tally.pending,
                      createdWithoutMaria := tally.withoutMaria);
    }

    method ResetRetryStates() returns (count: nat)
      modifies this`retries
      ensures retries == map[] && count == |old(retries)|
    {
      count := |retries|;
      retries := map[];
    }

    method ResetRetryState(p: PlayerId) returns (was: bool)
      modifies this`retries
      ensures retries == old(retries) - {p} && (was <==> p in old(retries))
    {
      was := p in retries;
      retries := retries - {p};
    }
  }

  // ----- scans and leases together -----

  // In a deployment of games that run the lease protocol: a game whose scan flushes a player either owns
  // the player's lease, and then nobody else does and every other game that still tracks the player is
  // the stale one, or a full ttl has gone by since its last confirmed refresh.
  lemma FlushedByOwnerOrStale(games: LeaseProtocol.Deployment, steps: seq<LeaseProtocol.Step>,
                              g: LeaseProtocol.GameName, p: PlayerId, t: Tracked, timing: Option<Timing>, now: nat,
                              w: Weather)
    requires LeaseProtocol.DistinctInstances(games) && g in games
    requires var s := LeaseProtocol.Run(games, LeaseProtocol.Init(games), steps);
             t.leased == LeaseProtocol.Tracks(s, g, p) && Visit(t, timing, now, w).1
    ensures var s := LeaseProtocol.Run(games, LeaseProtocol.Init(games), steps);
            && LeaseProtocol.Tracks(s, g, p)
            && (LeaseProtocol.Owns(s, g, p) <==> s.now < s.tables[g][p].refreshedAt + games[g].ttl)
            && forall h :: h in games && h != g && LeaseProtocol.Tracks(s, h, p) ==>
                 if s.tables[g][p].acquiredAt < s.tables[h][p].acquiredAt
                 then s.tables[g][p].refreshedAt + games[g].ttl <= s.tables[h][p].acquiredAt &&
                      !LeaseProtocol.Owns(s, g, p)
                 else s.tables[h][p].refreshedAt + games[h].ttl <= s.tables[g][p].acquiredAt &&
                      !LeaseProtocol.Owns(s, h, p)
  {
    var s := LeaseProtocol.Run(games, LeaseProtocol.Init(games), steps);
    LeaseProtocol.TrackedMeansOwnedOrStale(games, steps, g, p);
    forall h | h in games && h != g && LeaseProtocol.Tracks(s, h, p)
      ensures if s.tables[g][p].acquiredAt < s.tables[h][p].acquiredAt
              then s.tables[g][p].refreshedAt + games[g].ttl <= s.tables[h][p].acquiredAt &&
                   !LeaseProtocol.Owns(s, g, p)
              else s.tables[h][p].refreshedAt + games[h].ttl <= s.tables[g][p].acquiredAt &&
                   !LeaseProtocol.Owns(s, h, p)
    {
      LeaseProtocol.MutualExclusion(games, steps, g, h, p);
    }
  }
}
