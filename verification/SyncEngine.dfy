/** The synchroniser: full scans, incremental cycles with fallback, and write-through, over a
    persistent snapshot and a persistent token. The process may die at any cache write. */
module SyncEngines {
  import opened Prelude
  import opened CalDavServer
  import opened Snapshots
  import opened Deltas
  import opened SyncInvariant
  import opened CalDavRemote
  import opened SyncTransport

  datatype Mode = Full | Incremental

  datatype EffectiveMode = FullRead | FullScan | SyncToken

  /** The cache write before which the process dies, if any. */
  datatype Crash = NoCrash | BeforeSnapshot | BeforeTokens | BeforeStatus

  datatype Status =
    | NoStatus
    | Good(requested: Mode, effective: EffectiveMode, syncedAt: int, taskCount: nat, eventCount: nat,
           tasks: Delta, events: Delta)
    | Bad(mode: Mode, error: SyncError)

  datatype Outcome = Finished(effective: EffectiveMode) | Failed(error: SyncError) | Died

  const TOKEN_RETRY_SECONDS := 6 * 60 * 60

  /** What the persistent state promises about the server, in every reachable state: stored lists
      have no empty and no repeated UID, and under a usable token nothing can be lost. */
  ghost predicate Safe(s: Server, roles: Roles, ident: Identities, snapshot: Option<Snapshot>, tokens: TokenState) {
    && (snapshot.Some? ==> Unique(snapshot.value.tasks) && Unique(snapshot.value.events))
    && (tokens.Supported? && tokens.roles == roles ==>
          (forall c :: c in tokens.tokens ==> tokens.tokens[c] <= |s.log|))
    && (tokens.Supported? && tokens.roles == roles && snapshot.Some? ==>
          SafeKind(s, roles.tasks, Todo, ident, snapshot.value.tasks, tokens.tokens) &&
          SafeKind(s, roles.events, Event, ident, snapshot.value.events, tokens.tokens))
  }

  ghost predicate SafeKind(s: Server, c: string, K: Kind, ident: Identities, items: seq<Item>, tokens: map<string, nat>) {
    c in tokens ==> Synced(s, K, c, ident, items, tokens[c])
  }

  lemma SafeEvolves(s: Server, t: Server, roles: Roles, ident: Identities, snapshot: Option<Snapshot>, tokens: TokenState)
    requires Safe(s, roles, ident, snapshot, tokens) && Evolves(s, t)
    ensures Safe(t, roles, ident, snapshot, tokens)
  {
    if tokens.Supported? && tokens.roles == roles && snapshot.Some? {
      if roles.tasks in tokens.tokens {
        SyncedEvolves(s, t, Todo, roles.tasks, ident, snapshot.value.tasks, tokens.tokens[roles.tasks]);
      }
      if roles.events in tokens.tokens {
        SyncedEvolves(s, t, Event, roles.events, ident, snapshot.value.events, tokens.tokens[roles.events]);
      }
    }
  }

  /** Both lists of a fresh scan are safe under any tokens given out before the scan. */
  lemma ScanSafe(s: Server, roles: Roles, ident: Identities, current: Snapshot, at: nat, tokens: TokenState)
    requires Synced(s, Todo, roles.tasks, ident, current.tasks, at)
    requires Synced(s, Event, roles.events, ident, current.events, at)
    requires tokens.Supported? && tokens.roles == roles ==> forall c :: c in tokens.tokens ==> tokens.tokens[c] <= at
    ensures Safe(s, roles, ident, Some(current), tokens)
  {
  }

  /** The merge of a complete delta is safe under the new tokens, and still safe under the old
      ones if the process dies before storing the new ones. */
  lemma MergeSafe(s: Server, roles: Roles, ident: Identities, previous: Snapshot, since: map<string, nat>,
                  changes: Changes, current: Snapshot)
    requires Coherent(s, roles, ident)
    requires Safe(s, roles, ident, Some(previous), Supported(roles, since))
    requires {roles.tasks, roles.events} <= since.Keys && {roles.tasks, roles.events} == changes.tokens.Keys
    requires AllCollected(s, roles, ident, since, changes)
    requires current.tasks == MergeKind(previous.tasks, changes.tasks, changes.deleted)
    requires current.events == MergeKind(previous.events, changes.events, changes.deleted)
    ensures Safe(s, roles, ident, Some(current), Supported(roles, changes.tokens))
    ensures Safe(s, roles, ident, Some(current), Supported(roles, since))
  {
    CoherentForKind(s, roles, ident, Todo);
    CoherentForKind(s, roles, ident, Event);
    hide Coherent, CoherentKind, Synced, Collected;
    var t, e := roles.tasks, roles.events;
    MergeSynced(s, Todo, t, ident, since[t], changes.tokens[t], previous.tasks, changes.tasks, changes.deleted);
    MergeSynced(s, Event, e, ident, since[e], changes.tokens[e], previous.events, changes.events, changes.deleted);
    CollectedBounds(s, Todo, t, ident, since[t], changes.tokens[t], changes.tasks, changes.deleted);
    CollectedBounds(s, Event, e, ident, since[e], changes.tokens[e], changes.events, changes.deleted);
    SyncedOlderToken(s, Todo, t, ident, current.tasks, since[t], changes.tokens[t]);
    SyncedOlderToken(s, Event, e, ident, current.events, since[e], changes.tokens[e]);
    SyncedUnique(s, Todo, t, ident, current.tasks, since[t]);
    SyncedUnique(s, Event, e, ident, current.events, since[e]);
  }

  lemma CollectedBounds(s: Server, K: Kind, c: string, ident: Identities, k0: nat, k1: nat, items: seq<Item>, deleted: set<Url>)
    requires Collected(s, K, c, ident, k0, k1, items, deleted, map[])
    ensures k0 <= k1 <= |s.log|
  {
  }

  lemma SyncedUnique(s: Server, K: Kind, c: string, ident: Identities, items: seq<Item>, k: nat)
    requires Synced(s, K, c, ident, items, k)
    ensures Unique(items) && k <= |s.log|
  {
  }

  lemma ScanLemma(s: Server, roles: Roles, ident: Identities, K: Kind, items: seq<Item>, at: nat)
    requires Coherent(s, roles, ident) && K != Other && at <= |s.log|
    requires IsScan(s, K, RoleOf(roles, K), items)
    ensures Synced(s, K, RoleOf(roles, K), ident, items, at)
    ensures MatchesScan(s, roles, K, items)
  {
    CoherentForKind(s, roles, ident, K);
    ScanSynced(s, K, RoleOf(roles, K), ident, items, at);
    ScanSynced(s, K, RoleOf(roles, K), ident, items, |s.log|);
    forall scan | IsScan(s, K, RoleOf(roles, K), scan) ensures IndexOf(items) == IndexOf(scan) {
      SyncedNowIsScan(s, K, RoleOf(roles, K), ident, items, scan);
    }
  }

  /** Giving up on tokens promises nothing, and so is always safe. */
  lemma UnsupportedSafe(s: Server, roles: Roles, ident: Identities, snapshot: Option<Snapshot>, before: TokenState, after: TokenState)
    requires Safe(s, roles, ident, snapshot, before) && (after == before || after.Unsupported?)
    ensures Safe(s, roles, ident, snapshot, after)
  {
  }

  /** After an unsupported answer the server is left alone until the retry time. */
  predicate RetryBlocked(tokens: TokenState, roles: Roles, now: int) {
    tokens.Unsupported? && tokens.blockedRoles == roles && now < tokens.retryAt
  }

  /** A delta cycle needs a snapshot and tokens for the configured roles. */
  predicate TokensUsable(snapshot: Option<Snapshot>, tokens: TokenState, roles: Roles) {
    snapshot.Some? && tokens.Supported? && tokens.roles == roles
  }

  /** The cached list of component type K is, as a UID map, what a full scan would return now. */
  ghost predicate MatchesScan(s: Server, roles: Roles, K: Kind, items: seq<Item>) {
    forall scan :: IsScan(s, K, RoleOf(roles, K), scan) ==> IndexOf(items) == IndexOf(scan)
  }

  lemma TokensInLog(s: Server, roles: Roles, ident: Identities, snapshot: Option<Snapshot>, tokens: TokenState)
    requires Safe(s, roles, ident, snapshot, tokens) && tokens.Supported? && tokens.roles == roles
    ensures forall c :: c in tokens.tokens ==> tokens.tokens[c] <= |s.log|
  {
  }

  /** A snapshot that is safe under the server's newest tokens is what a full scan would return. */
  lemma NewestMatchesScan(s: Server, roles: Roles, ident: Identities, current: Snapshot, tokens: map<string, nat>)
    requires Coherent(s, roles, ident) && Safe(s, roles, ident, Some(current), Supported(roles, tokens))
    requires {roles.tasks, roles.events} == tokens.Keys
    requires forall c :: c in tokens ==> tokens[c] == |s.log|
    ensures MatchesScan(s, roles, Todo, current.tasks) && MatchesScan(s, roles, Event, current.events)
  {
    CoherentForKind(s, roles, ident, Todo);
    CoherentForKind(s, roles, ident, Event);
    forall scan | IsScan(s, Todo, roles.tasks, scan) ensures IndexOf(current.tasks) == IndexOf(scan) {
      SyncedNowIsScan(s, Todo, roles.tasks, ident, current.tasks, scan);
    }
    forall scan | IsScan(s, Event, roles.events, scan) ensures IndexOf(current.events) == IndexOf(scan) {
      SyncedNowIsScan(s, Event, roles.events, ident, current.events, scan);
    }
  }

  /** The cache agrees with the server on every URL that was not edited after log position `at`. */
  ghost predicate CaughtUp(s: Server, roles: Roles, ident: Identities, current: Snapshot, at: nat) {
    && Synced(s, Todo, roles.tasks, ident, current.tasks, at)
    && Synced(s, Event, roles.events, ident, current.events, at)
  }

  /** The stored tokens were given out at log position `at` or later. */
  predicate TokensSince(tokens: TokenState, roles: Roles, at: nat) {
    && tokens.Supported? && tokens.roles == roles
    && tokens.tokens.Keys == {roles.tasks, roles.events}
    && forall c :: c in tokens.tokens ==> at <= tokens.tokens[c]
  }

  lemma CaughtUpOlder(s: Server, roles: Roles, ident: Identities, current: Snapshot, older: nat, at: nat)
    requires CaughtUp(s, roles, ident, current, at) && older <= at
    ensures CaughtUp(s, roles, ident, current, older)
  {
  }

  lemma SyncedCaughtUp(s: Server, roles: Roles, ident: Identities, current: Snapshot, older: nat, at: nat)
    requires Synced(s, Todo, roles.tasks, ident, current.tasks, at)
    requires Synced(s, Event, roles.events, ident, current.events, at) && older <= at
    ensures CaughtUp(s, roles, ident, current, older)
  {
  }

  lemma SafeCaughtUp(s: Server, roles: Roles, ident: Identities, current: Snapshot, tokens: TokenState, at: nat)
    requires Safe(s, roles, ident, Some(current), tokens) && TokensSince(tokens, roles, at)
    ensures CaughtUp(s, roles, ident, current, at)
  {
  }

  class SyncEngine {
    const remote: Remote
    const transport: Transport
    var snapshot: Option<Snapshot>
    var tokens: TokenState
    var status: Status

    constructor (remote: Remote, snapshot: Option<Snapshot>, tokens: TokenState)
      requires remote.Valid() && Safe(remote.server, remote.roles, remote.ident, snapshot, tokens)
      ensures Valid() && this.remote == remote && fresh(transport)
      ensures this.snapshot == snapshot && this.tokens == tokens
    {
      this.remote := remote;
      this.transport := new Transport(remote);
      this.snapshot, this.tokens, this.status := snapshot, tokens, NoStatus;
    }

    ghost predicate Valid()
      reads this, remote
    {
      && transport.remote == remote
      && remote.Valid()
      && Safe(remote.server, remote.roles, remote.ident, snapshot, tokens)
    }

    /** A list may be stored only without empty or repeated UIDs. */
    method CheckUnique(items: seq<Item>) returns (ok: bool)
      ensures ok <==> Unique(items)
    {
      var seen: set<string> := {};
      for i := 0 to |items|
        invariant seen == set j | 0 <= j < i :: items[j].uid
        invariant Unique(items[..i])
      {
        if items[i].uid == "" || items[i].uid in seen {
          return false;
        }
        seen := seen + {items[i].uid};
        assert items[..i + 1] == items[..i] + [items[i]];
      }
      assert items[..|items|] == items;
      ok := true;
    }

    /** One complete, verified read of both role collections. `at` is any log position before the
        read. */
    method ReadRemote(now: int, ghost at: nat) returns (r: Result<Snapshot, SyncError>)
      requires remote.Valid() && at <= |remote.server.log|
      modifies remote
      ensures remote.Moved()
      ensures r.Ok? ==>
                && Synced(remote.server, Todo, remote.roles.tasks, remote.ident, r.value.tasks, at)
                && Synced(remote.server, Event, remote.roles.events, remote.ident, r.value.events, at)
      ensures r.Ok? && NoEdits(old(remote.turns)) ==>
                && MatchesScan(remote.server, remote.roles, Todo, r.value.tasks)
                && MatchesScan(remote.server, remote.roles, Event, r.value.events)
      ensures r.Ok? ==> r.value.syncedAt == now
      ensures r.Err? ==> r.error.AppError? && !NoFaults(old(remote.turns))
    {
      hide Coherent, Synced, IsScan, MatchesScan, NoEdits, NoFaults, Evolves;
      ghost var s0 := remote.server;
      FaultFree(remote.turns);
      var taskList := remote.List(Todo, remote.roles.tasks);
      if taskList.Err? {
        return Err(AppError(taskList.error));
      }
      ghost var s1 := remote.server;
      LogGrows(s0, s1);
      FaultFree(remote.turns);
      ScanLemma(s1, remote.roles, remote.ident, Todo, taskList.value, at);
      var eventList := remote.List(Event, remote.roles.events);
      EvolvesTransitive(s0, s1, remote.server);
      if eventList.Err? {
        return Err(AppError(eventList.error));
      }
      LogGrows(s0, remote.server);
      SyncedEvolves(s1, remote.server, Todo, remote.roles.tasks, remote.ident, taskList.value, at);
      ScanLemma(remote.server, remote.roles, remote.ident, Event, eventList.value, at);
      SyncedUnique(remote.server, Todo, remote.roles.tasks, remote.ident, taskList.value, at);
      SyncedUnique(remote.server, Event, remote.roles.events, remote.ident, eventList.value, at);
      var tasksOk := CheckUnique(taskList.value);
      var eventsOk := CheckUnique(eventList.value);
      if !tasksOk || !eventsOk {
        return Err(Conflict);
      }
      r := Ok(Snapshot(taskList.value, eventList.value, now, None));
    }

    /** Seed tokens before a full scan, unless the capability is absent or known to be. */
    method SeedTokenState(force: bool, now: int, available: bool) returns (r: Result<Option<TokenState>, SyncError>)
      requires transport.remote == remote && remote.Valid()
      modifies this`tokens, remote
      ensures remote.Moved()
      ensures tokens == old(tokens) || (r == Ok(None) && tokens == Unsupported(remote.roles, now + TOKEN_RETRY_SECONDS))
      ensures !available ||
              (!force && old(tokens).Unsupported? && old(tokens).blockedRoles == remote.roles && now < old(tokens).retryAt) ==>
                r == Ok(None) && tokens == old(tokens) && remote.server == old(remote.server) && remote.turns == old(remote.turns)
      ensures r.Err? ==> r.error.AppError? && !NoFaults(old(remote.turns))
      ensures available &&
              (force || !(old(tokens).Unsupported? && old(tokens).blockedRoles == remote.roles && now < old(tokens).retryAt)) &&
              NoFaults(old(remote.turns)) && GivesTokens(old(remote.turns)) ==>
                r.Ok? && r.value.Some?
      ensures available &&
              (force || !(old(tokens).Unsupported? && old(tokens).blockedRoles == remote.roles && now < old(tokens).retryAt)) ==>
                r == Ok(None) ==> tokens == Unsupported(remote.roles, now + TOKEN_RETRY_SECONDS)
      ensures r.Ok? && r.value.Some? ==>
                && tokens == old(tokens) && TokensSince(r.value.value, remote.roles, |old(remote.server).log|)
                && (forall c :: c in r.value.value.tokens ==> r.value.value.tokens[c] <= |remote.server.log|)
    {
      hide Coherent;
      if !available || (!force && RetryBlocked(tokens, remote.roles, now)) {
        EvolvesReflexive(remote.server);
        return Ok(None);
      }
      var seeded := transport.Seed();
      match seeded {
        case Ok(positions) => r := Ok(Some(Supported(remote.roles, positions)));
        case Err(Unavailable) =>
          tokens := Unsupported(remote.roles, now + TOKEN_RETRY_SECONDS);
          r := Ok(None);
        case Err(error) => r := Err(error);
      }
    }

    /** Seed, scan, then store the snapshot first and the token second. */
    method FullSync(requested: Mode, force: bool, now: int, available: bool, crash: Crash) returns (outcome: Outcome)
      requires Valid()
      modifies this, remote
      ensures Valid() && remote.Moved()
      ensures outcome.Failed? ==> snapshot == old(snapshot) && outcome.error.AppError?
      ensures outcome.Failed? ==> tokens == old(tokens) || tokens == Unsupported(remote.roles, now + TOKEN_RETRY_SECONDS)
      ensures crash == NoCrash && NoFaults(old(remote.turns)) ==> outcome.Finished?
      ensures outcome.Finished? ==> snapshot.Some? && snapshot.value.syncedAt == now
      ensures outcome.Finished? ==> outcome.effective == if requested == Full then FullRead else FullScan
      ensures outcome.Finished? ==> CaughtUp(remote.server, remote.roles, remote.ident, snapshot.value, |old(remote.server).log|)
      ensures !available ||
              (!force && old(tokens).Unsupported? && old(tokens).blockedRoles == remote.roles && now < old(tokens).retryAt) ==>
                tokens == old(tokens)
      ensures outcome.Finished? && available &&
              (force || !(old(tokens).Unsupported? && old(tokens).blockedRoles == remote.roles && now < old(tokens).retryAt)) &&
              NoFaults(old(remote.turns)) && GivesTokens(old(remote.turns)) ==>
                TokensSince(tokens, remote.roles, |old(remote.server).log|)
      ensures outcome.Finished? && available &&
              (force || !(old(tokens).Unsupported? && old(tokens).blockedRoles == remote.roles && now < old(tokens).retryAt)) ==>
                || tokens == Unsupported(remote.roles, now + TOKEN_RETRY_SECONDS)
                || TokensSince(tokens, remote.roles, |old(remote.server).log|)
      ensures outcome.Finished? ==> StatusOf(requested, old(snapshot), outcome.effective)
      ensures outcome.Finished? && NoEdits(old(remote.turns)) ==>
                && MatchesScan(remote.server, remote.roles, Todo, snapshot.value.tasks)
                && MatchesScan(remote.server, remote.roles, Event, snapshot.value.events)
    {
      hide Coherent, Synced, MatchesScan, Evolves, IsDelta, Safe, CaughtUp, TokensSince, NoEdits, NoFaults, GivesTokens, RetryBlocked, IndexOf;
      ghost var s0 := remote.server;
      var seed := SeedTokenState(force, now, available);
      ghost var s1 := remote.server;
      SafeEvolves(s0, s1, remote.roles, remote.ident, snapshot, old(tokens));
      UnsupportedSafe(s1, remote.roles, remote.ident, snapshot, old(tokens), tokens);
      if seed.Err? {
        return Failed(seed.error);
      }
      ghost var at := |s1.log|;
      LogGrows(s0, s1);
      var read := ReadRemote(now, at);
      EvolvesTransitive(s0, s1, remote.server);
      SafeEvolves(s1, remote.server, remote.roles, remote.ident, snapshot, tokens);
      if read.Err? {
        return Failed(read.error);
      }
      var current := read.value;
      SyncedCaughtUp(remote.server, remote.roles, remote.ident, current, |s0.log|, at);
      ScanSafe(remote.server, remote.roles, remote.ident, current, at, tokens);
      if seed.value.Some? {
        ScanSafe(remote.server, remote.roles, remote.ident, current, at, seed.value.value);
      }
      outcome := StoreCycle(requested, if requested == Full then FullRead else FullScan, current, seed.value, crash);
    }

    /** The report stored after a successful cycle counts the new lists and names the exact
        difference from the previous ones. */
    ghost predicate StatusOf(requested: Mode, previous: Option<Snapshot>, effective: EffectiveMode)
      requires snapshot.Some?
      reads this
    {
      && status.Good? && status.requested == requested && status.effective == effective
      && status.syncedAt == snapshot.value.syncedAt
      && status.taskCount == |snapshot.value.tasks| && status.eventCount == |snapshot.value.events|
      && IsDelta(status.tasks, IndexOf(if previous.Some? then previous.value.tasks else []), IndexOf(snapshot.value.tasks))
      && IsDelta(status.events, IndexOf(if previous.Some? then previous.value.events else []), IndexOf(snapshot.value.events))
    }

    /** The three cache writes of a cycle: the snapshot first, then the tokens if there are new ones, then the
        status. The process may die before each. */
    method StoreCycle(requested: Mode, effective: EffectiveMode, current: Snapshot, next: Option<TokenState>, crash: Crash)
      returns (outcome: Outcome)
      requires Valid()
      requires Safe(remote.server, remote.roles, remote.ident, Some(current), tokens)
      requires next.Some? ==> Safe(remote.server, remote.roles, remote.ident, Some(current), next.value)
      modifies this
      ensures Valid()
      ensures outcome == if crash == NoCrash then Finished(effective) else Died
      ensures snapshot == if crash == BeforeSnapshot then old(snapshot) else Some(current)
      ensures tokens == if next == None || crash == BeforeSnapshot || crash == BeforeTokens then old(tokens) else next.value
      ensures crash != NoCrash ==> status == old(status)
      ensures outcome.Finished? ==>
                && snapshot == Some(current) && StatusOf(requested, old(snapshot), effective)
                && (next.Some? ==> tokens == next.value)
    {
      hide Safe, Coherent, IsDelta, IndexOf;
      var previous := snapshot;
      var taskDelta := Compare(if previous.Some? then previous.value.tasks else [], current.tasks);
      var eventDelta := Compare(if previous.Some? then previous.value.events else [], current.events);

      if crash == BeforeSnapshot { return Died; }
      snapshot := Some(current);
      if crash == BeforeTokens { return Died; }
      if next.Some? {
        tokens := next.value;
      }
      if crash == BeforeStatus { return Died; }
      status := Good(requested, effective, current.syncedAt, |current.tasks|, |current.events|, taskDelta, eventDelta);
      outcome := Finished(effective);
    }

    /** An explicitly requested full read. */
    method Refresh(now: int, available: bool, crash: Crash) returns (outcome: Outcome)
      requires Valid()
      modifies this, remote
      ensures Valid() && remote.Moved()
      ensures outcome.Failed? ==>
                snapshot == old(snapshot) && status == Bad(Full, outcome.error) && outcome.error.AppError?
      ensures crash == NoCrash && NoFaults(old(remote.turns)) ==> outcome.Finished?
      ensures outcome.Finished? ==> outcome.effective == FullRead && snapshot.Some? && snapshot.value.syncedAt == now
      ensures outcome.Finished? ==> StatusOf(Full, old(snapshot), FullRead)
      ensures !available || (old(tokens).Unsupported? && old(tokens).blockedRoles == remote.roles && now < old(tokens).retryAt) ==>
                tokens == old(tokens)
      ensures outcome.Finished? && available &&
              !(old(tokens).Unsupported? && old(tokens).blockedRoles == remote.roles && now < old(tokens).retryAt) &&
              NoFaults(old(remote.turns)) && GivesTokens(old(remote.turns)) ==>
                TokensSince(tokens, remote.roles, |old(remote.server).log|)
      ensures outcome.Finished? ==> CaughtUp(remote.server, remote.roles, remote.ident, snapshot.value, |old(remote.server).log|)
      ensures outcome.Finished? && NoEdits(old(remote.turns)) ==>
                && MatchesScan(remote.server, remote.roles, Todo, snapshot.value.tasks)
                && MatchesScan(remote.server, remote.roles, Event, snapshot.value.events)
    {
      hide Coherent, Synced, MatchesScan, Evolves, IsDelta, Safe;
      outcome := FullSync(Full, false, now, available, crash);
      if outcome.Failed? {
        status := Bad(Full, outcome.error);
      }
    }

    /** Merge a delta into the previous snapshot and check it before anything is stored. */
    method MergeIncremental(previous: Snapshot, changes: Changes, now: int) returns (r: Result<Snapshot, SyncError>)
      ensures r == Ok(Snapshot(MergeKind(previous.tasks, changes.tasks, changes.deleted),
                               MergeKind(previous.events, changes.events, changes.deleted), now, None))
    {
      var tasks := MergeKind(previous.tasks, changes.tasks, changes.deleted);
      var events := MergeKind(previous.events, changes.events, changes.deleted);
      var tasksOk := CheckUnique(tasks);
      var eventsOk := CheckUnique(events);
      r := if tasksOk && eventsOk then Ok(Snapshot(tasks, events, now, None)) else Err(Conflict);
      MergeIndex(previous.tasks, changes.tasks, changes.deleted);
      MergeIndex(previous.events, changes.events, changes.deleted);
    }

    /** One background cycle: a delta when the stored token allows it, else an honest full scan. */
    method IncrementalSync(now: int, available: bool, crash: Crash) returns (outcome: Outcome)
      requires Valid()
      modifies this, remote
      ensures Valid() && remote.Moved()
      ensures outcome.Failed? ==>
                snapshot == old(snapshot) && status == Bad(Incremental, outcome.error) && outcome.error.AppError?
      ensures outcome.Failed? ==> tokens == old(tokens) || tokens == Unsupported(remote.roles, now + TOKEN_RETRY_SECONDS)
      ensures crash == NoCrash && NoFaults(old(remote.turns)) ==> outcome.Finished?
      ensures old(tokens).Unsupported? && old(tokens).blockedRoles == remote.roles && now < old(tokens).retryAt ==>
                tokens == old(tokens)
      ensures old(snapshot).Some? && old(tokens).Supported? && old(tokens).roles == remote.roles &&
              {remote.roles.tasks, remote.roles.events} <= old(tokens).tokens.Keys &&
              crash == NoCrash && NoFaults(old(remote.turns)) && GivesTokens(old(remote.turns)) ==>
                outcome == Finished(SyncToken)
      ensures outcome.Finished? && available &&
              !(old(tokens).Unsupported? && old(tokens).blockedRoles == remote.roles && now < old(tokens).retryAt) &&
              NoFaults(old(remote.turns)) && GivesTokens(old(remote.turns)) ==>
                TokensSince(tokens, remote.roles, |old(remote.server).log|)
      ensures outcome == Finished(SyncToken) ==> TokensUsable(old(snapshot), old(tokens), remote.roles)
      ensures TokensUsable(old(snapshot), old(tokens), remote.roles) && remote.roles.tasks in old(tokens).tokens ==>
                match NextFault(old(remote.turns))
                case None => true
                case Some(OtherError) => outcome == Failed(AppError(OtherError)) && tokens == old(tokens)
                case Some(_) =>
                  && outcome != Finished(SyncToken)
                  && (crash == NoCrash && NoFaults(Later(old(remote.turns))) ==> outcome == Finished(FullScan))
      ensures outcome.Finished? ==> snapshot.Some? && snapshot.value.syncedAt == now
      ensures outcome.Finished? ==> CaughtUp(remote.server, remote.roles, remote.ident, snapshot.value, |old(remote.server).log|)
      ensures outcome == Finished(SyncToken) ==> TokensSince(tokens, remote.roles, |old(remote.server).log|)
      ensures outcome.Finished? ==> StatusOf(Incremental, old(snapshot), outcome.effective)
      ensures outcome.Finished? && NoEdits(old(remote.turns)) ==>
                && MatchesScan(remote.server, remote.roles, Todo, snapshot.value.tasks)
                && MatchesScan(remote.server, remote.roles, Event, snapshot.value.events)
    {
      hide Coherent, Synced, MatchesScan, Evolves, IsDelta, Safe, AllCollected, CaughtUp, NoEdits, NoFaults, GivesTokens;
      var previous, state := snapshot, tokens;
      if !TokensUsable(previous, state, remote.roles) {
        outcome := FullSync(Incremental, state.Supported?, now, available, crash);
        if outcome.Failed? {
          status := Bad(Incremental, outcome.error);
        }
        return;
      }
      TokensInLog(remote.server, remote.roles, remote.ident, snapshot, tokens);
      ghost var s0 := remote.server;
      var changes := transport.GetChanges(state);
      SafeEvolves(s0, remote.server, remote.roles, remote.ident, snapshot, tokens);
      if changes.Err? {
        if changes.error == Stale || changes.error == Unavailable {
          ghost var s1 := remote.server;
          outcome := FullSync(Incremental, true, now, available, crash);
          EvolvesTransitive(s0, s1, remote.server);
          if outcome.Finished? {
            LogGrows(s0, s1);
            CaughtUpOlder(remote.server, remote.roles, remote.ident, snapshot.value, |s0.log|, |s1.log|);
          }
        } else {
          outcome := Failed(changes.error);
        }
        if outcome.Failed? {
          status := Bad(Incremental, outcome.error);
        }
        return;
      }
      var merged := MergeIncremental(previous.value, changes.value, now);
      var current := merged.value;
      MergeSafe(remote.server, remote.roles, remote.ident, previous.value, state.tokens, changes.value, current);
      outcome := StoreCycle(Incremental, SyncToken, current, Some(Supported(remote.roles, changes.value.tokens)), crash);
      if outcome == Died { return; }
      SafeCaughtUp(remote.server, remote.roles, remote.ident, current, tokens, |s0.log|);
      if NoEdits(old(remote.turns)) {
        NewestMatchesScan(remote.server, remote.roles, remote.ident, current, changes.value.tokens);
      }
    }
  }
}
