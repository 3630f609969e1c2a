/** Write-through after a local mutation, and whole runs of the synchroniser in which cycles,
    patches, crashes and other clients' edits come in any order. */
module WriteThrough {
  import opened Prelude
  import opened CalDavServer
  import opened Snapshots
  import opened SyncInvariant
  import opened CalDavRemote
  import opened SyncTransport
  import opened SyncEngines

  /** The object a mutation returned is still what the server holds: nobody wrote the same
      resource between our write and its patch. */
  predicate Undisturbed(s: Server, roles: Roles, K: Kind, x: Item) {
    x.url.collection == RoleOf(roles, K) && Present(s, K, x.url) && x == CurrentItem(s, x.url)
  }

  /** The UID a deletion removed is still gone. */
  predicate StillGone(s: Server, roles: Roles, K: Kind, uid: string) {
    forall u :: u in s.resources && u.collection == RoleOf(roles, K) && s.resources[u].body.kind == K ==>
                  s.resources[u].body.uid != uid
  }

  function PatchSnapshotOf(snapshot: Option<Snapshot>, K: Kind, obj: Option<Item>, removeId: Option<string>, now: int): Option<Snapshot> {
    match snapshot
    case None => None
    case Some(was) =>
      Some(if K == Todo
           then was.(tasks := PatchKind(was.tasks, obj, removeId), cacheUpdatedAt := Some(now))
           else was.(events := PatchKind(was.events, obj, removeId), cacheUpdatedAt := Some(now)))
  }

  lemma UpsertSafe(s: Server, roles: Roles, ident: Identities, snapshot: Option<Snapshot>, tokens: TokenState,
                   K: Kind, x: Item, now: int)
    requires Coherent(s, roles, ident) && K != Other && Safe(s, roles, ident, snapshot, tokens)
    requires Undisturbed(s, roles, K, x)
    ensures Safe(s, roles, ident, PatchSnapshotOf(snapshot, K, Some(x), None, now), tokens)
  {
    assert WellPlaced(s, roles, ident, x.url);
    if snapshot.Some? {
      var c, items := RoleOf(roles, K), if K == Todo then snapshot.value.tasks else snapshot.value.events;
      PatchContents(items, Some(x), None);
      if tokens.Supported? && tokens.roles == roles && c in tokens.tokens {
        CoherentForKind(s, roles, ident, K);
        PatchSynced(s, K, c, ident, items, tokens.tokens[c], x);
      }
    }
  }

  lemma RemovalSafe(s: Server, roles: Roles, ident: Identities, snapshot: Option<Snapshot>, tokens: TokenState,
                    K: Kind, uid: string, now: int)
    requires Coherent(s, roles, ident) && K != Other && Safe(s, roles, ident, snapshot, tokens)
    requires StillGone(s, roles, K, uid)
    ensures Safe(s, roles, ident, PatchSnapshotOf(snapshot, K, None, Some(uid), now), tokens)
  {
    if snapshot.Some? {
      var c, items := RoleOf(roles, K), if K == Todo then snapshot.value.tasks else snapshot.value.events;
      PatchContents(items, None, Some(uid));
      if tokens.Supported? && tokens.roles == roles && c in tokens.tokens {
        CoherentForKind(s, roles, ident, K);
        RemoveSynced(s, K, c, ident, items, tokens.tokens[c], uid);
      }
    }
  }

  class CacheAdapter {
    const engine: SyncEngine

    constructor (engine: SyncEngine)
      ensures this.engine == engine
    {
      this.engine := engine;
    }

    /** Patch a present snapshot after a successful server write. Only the target UID changes,
        `syncedAt` stays, and the synchroniser's promise is kept if the written resource was not
        disturbed since. */
    method PatchSnapshot(K: Kind, obj: Option<Item>, removeId: Option<string>, now: int)
      requires engine.Valid() && K != Other
      requires obj.Some? ==> obj.value.uid != ""
      modifies engine`snapshot
      ensures engine.snapshot == PatchSnapshotOf(old(engine.snapshot), K, obj, removeId, now)
      ensures engine.snapshot.Some? ==>
                && engine.snapshot.value.syncedAt == old(engine.snapshot).value.syncedAt
                && var before, after := ListOf(old(engine.snapshot).value, K), ListOf(engine.snapshot.value, K);
                   && Unique(after)
                   && (forall x :: x in after <==>
                         obj == Some(x) ||
                         (x in before && removeId != Some(x.uid) && (obj.Some? ==> x.uid != obj.value.uid)))
      ensures obj.Some? && removeId.None? && Undisturbed(engine.remote.server, engine.remote.roles, K, obj.value) ==>
                engine.Valid()
      ensures obj.None? && removeId.Some? && StillGone(engine.remote.server, engine.remote.roles, K, removeId.value) ==>
                engine.Valid()
    {
      if engine.snapshot.None? {
        return;
      }
      var before := engine.snapshot.value;
      PatchContents(ListOf(before, K), obj, removeId);
      if obj.Some? && removeId.None? {
        if Undisturbed(engine.remote.server, engine.remote.roles, K, obj.value) {
          UpsertSafe(engine.remote.server, engine.remote.roles, engine.remote.ident, engine.snapshot, engine.tokens,
                     K, obj.value, now);
        }
      } else if obj.None? && removeId.Some? && StillGone(engine.remote.server, engine.remote.roles, K, removeId.value) {
        RemovalSafe(engine.remote.server, engine.remote.roles, engine.remote.ident, engine.snapshot, engine.tokens,
                    K, removeId.value, now);
      }
      var updated := PatchKind(ListOf(before, K), obj, removeId);
      engine.snapshot := Some(if K == Todo then before.(tasks := updated, cacheUpdatedAt := Some(now))
                              else before.(events := updated, cacheUpdatedAt := Some(now)));
    }
  }

  function ListOf(snapshot: Snapshot, K: Kind): seq<Item> {
    if K == Todo then snapshot.tasks else snapshot.events
  }

  /** One thing that can happen to the client. The server's turns, own writes included, are the
      script of the remote; a crash is a crash point of a cycle. */
  datatype Command =
    | DoRefresh(at: int, available: bool, crash: Crash)
    | DoIncremental(at: int, available: bool, crash: Crash)
    | DoPatch(K: Kind, obj: Item, at: int)
    | DoRemove(K: Kind, uid: string, at: int)
    | DoNothing

  /** What one command achieves: a cycle without crash and faults leaves a snapshot of its own time that
      is what a full scan returns when nobody edits meanwhile, and new tokens if the server gives
      them; a patch that is not late replaces or removes its one UID; a quiet command changes nothing
      but the server. A patch whose resource was disturbed in between is outside the hypotheses and
      is not part of a run. */
  method Perform(adapter: CacheAdapter, command: Command)
    requires adapter.engine.Valid()
    modifies adapter.engine, adapter.engine.remote
    ensures adapter.engine.Valid() && adapter.engine.remote.Moved()
    ensures (command.DoRefresh? || command.DoIncremental?) && command.crash == NoCrash && NoFaults(old(adapter.engine.remote.turns)) ==>
              Current(adapter.engine, command.at, |old(adapter.engine.remote.server).log|, NoEdits(old(adapter.engine.remote.turns)))
    ensures (command.DoRefresh? || command.DoIncremental?) && command.crash == NoCrash && command.available &&
            NoFaults(old(adapter.engine.remote.turns)) && GivesTokens(old(adapter.engine.remote.turns)) &&
            !RetryBlocked(old(adapter.engine.tokens), adapter.engine.remote.roles, command.at) ==>
              TokensSince(adapter.engine.tokens, adapter.engine.remote.roles, |old(adapter.engine.remote.server).log|)
    ensures command.DoRefresh? && !command.available ==> adapter.engine.tokens == old(adapter.engine.tokens)
    ensures command.DoPatch? && command.K != Other && command.obj.uid != "" &&
            Undisturbed(old(adapter.engine.remote.server), adapter.engine.remote.roles, command.K, command.obj) ==>
              adapter.engine.snapshot == PatchSnapshotOf(old(adapter.engine.snapshot), command.K, Some(command.obj), None, command.at)
    ensures command.DoRemove? && command.K != Other &&
            StillGone(old(adapter.engine.remote.server), adapter.engine.remote.roles, command.K, command.uid) ==>
              adapter.engine.snapshot == PatchSnapshotOf(old(adapter.engine.snapshot), command.K, None, Some(command.uid), command.at)
    ensures command.DoPatch? || command.DoRemove? ==>
              && adapter.engine.remote.server == old(adapter.engine.remote.server)
              && adapter.engine.remote.turns == old(adapter.engine.remote.turns)
              && adapter.engine.tokens == old(adapter.engine.tokens)
    ensures command.DoNothing? ==>
              && adapter.engine.snapshot == old(adapter.engine.snapshot) && adapter.engine.tokens == old(adapter.engine.tokens)
              && adapter.engine.remote.server ==
                 Played(old(adapter.engine.remote.server), NextEdits(old(adapter.engine.remote.turns)),
                        adapter.engine.remote.roles, adapter.engine.remote.ident)
  {
    hide Evolves, Coherent, Safe, CaughtUp, MatchesScan, NoEdits, NoFaults;
    var engine := adapter.engine;
    ghost var before := engine.remote.server;
    EvolvesReflexive(before);
    match command {
      case DoRefresh(at, available, crash) =>
        var _ := engine.Refresh(at, available, crash);
      case DoIncremental(at, available, crash) =>
        var _ := engine.IncrementalSync(at, available, crash);
      case DoPatch(K, obj, at) =>
        if K != Other && obj.uid != "" && Undisturbed(engine.remote.server, engine.remote.roles, K, obj) {
          adapter.PatchSnapshot(K, Some(obj), None, at);
        }
      case DoRemove(K, uid, at) =>
        if K != Other && StillGone(engine.remote.server, engine.remote.roles, K, uid) {
          adapter.PatchSnapshot(K, None, Some(uid), at);
        }
      case DoNothing =>
        var _ := engine.remote.Interleave();
        SafeEvolves(before, engine.remote.server, engine.remote.roles, engine.remote.ident, engine.snapshot, engine.tokens);
    }
  }

  /** The snapshot is of a cycle at this time: it agrees with the server on all that was not edited since log
      position `since`, and is a full scan if nobody edited. */
  ghost predicate Current(engine: SyncEngine, at: int, since: nat, quiet: bool)
    reads engine, engine.remote
  {
    var remote := engine.remote;
    && engine.snapshot.Some? && engine.snapshot.value.syncedAt == at
    && CaughtUp(remote.server, remote.roles, remote.ident, engine.snapshot.value, since)
    && (quiet ==>
          && MatchesScan(remote.server, remote.roles, Todo, engine.snapshot.value.tasks)
          && MatchesScan(remote.server, remote.roles, Event, engine.snapshot.value.events))
  }

  /** Every run keeps the promise, and after any run a last cycle without crash and faults, whatever
      crashed or was edited before, leaves a current snapshot. */
  method Run(adapter: CacheAdapter, commands: seq<Command>)
    requires adapter.engine.Valid()
    modifies adapter.engine, adapter.engine.remote
    ensures adapter.engine.Valid() && adapter.engine.remote.Moved()
    ensures commands != [] && NoFaults(old(adapter.engine.remote.turns)) ==>
              var last := commands[|commands| - 1];
              (last.DoRefresh? || last.DoIncremental?) && last.crash == NoCrash ==>
                Current(adapter.engine, last.at, |old(adapter.engine.remote.server).log|, NoEdits(old(adapter.engine.remote.turns)))
  {
    hide Evolves, Coherent, Safe, CaughtUp, MatchesScan, NoEdits, NoFaults, GivesTokens;
    var engine := adapter.engine;
    EvolvesReflexive(engine.remote.server);
    for i := 0 to |commands|
      invariant engine.Valid() && engine.remote.Moved()
      invariant i > 0 && NoFaults(old(engine.remote.turns)) &&
                (commands[i - 1].DoRefresh? || commands[i - 1].DoIncremental?) && commands[i - 1].crash == NoCrash ==>
                  Current(engine, commands[i - 1].at, |old(engine.remote.server).log|, NoEdits(old(engine.remote.turns)))
    {
      ghost var before := engine.remote.server;
      Perform(adapter, commands[i]);
      EvolvesTransitive(old(engine.remote.server), before, engine.remote.server);
      LogGrows(old(engine.remote.server), before);
      if engine.snapshot.Some? && CaughtUp(engine.remote.server, engine.remote.roles, engine.remote.ident, engine.snapshot.value, |before.log|) {
        CaughtUpOlder(engine.remote.server, engine.remote.roles, engine.remote.ident, engine.snapshot.value,
                      |old(engine.remote.server).log|, |before.log|);
      }
    }
  }

  /** What `Safe` means to a user: whatever happened, a resource is either cached exactly as the
      server has it, or any correct answer to the stored token will mention it. */
  lemma NothingLost(s: Server, roles: Roles, ident: Identities, snapshot: Snapshot, tokens: map<string, nat>,
                    K: Kind, u: Url, rows: seq<Row>)
    requires Safe(s, roles, ident, Some(snapshot), Supported(roles, tokens))
    requires K != Other && u.collection == RoleOf(roles, K) && u.collection in tokens
    requires IsReport(s, u.collection, tokens[u.collection], rows)
    ensures AgreesAt(s, K, ListOf(snapshot, K), u) || exists i :: 0 <= i < |rows| && rows[i].url == u
  {
  }

  // ---- hypotheses that the code cannot do without ----

  /** Two writes of one resource, ours and then a foreign one, and our patch at last, since only the
      patch is under the lock: the promise is kept if and only if the token stored by then is not
      newer than our write, so that the foreign one is still to be reported. A cycle that runs
      between the foreign write and our patch makes the cache wrong for good. */
  lemma LatePatchLaw(s: Server, K: Kind, c: string, ident: Identities, u: Url, ours: Body, theirs: Body,
                     items: seq<Item>, k: nat)
    requires K != Other && u.collection == c && ours.kind == K
    requires ident(u) == Identity(ours.kind, ours.uid) == Identity(theirs.kind, theirs.uid)
    requires var written := Apply(s, Put(u, ours)); var now := Apply(written, Put(u, theirs));
             CoherentKind(now, K, c, ident) && Synced(now, K, c, ident, items, k)
    ensures var written := Apply(s, Put(u, ours)); var now := Apply(written, Put(u, theirs));
            Synced(now, K, c, ident, PatchKind(items, Some(CurrentItem(written, u)), None), k) <==> k <= |written.log|
  {
    var written := Apply(s, Put(u, ours));
    var now := Apply(written, Put(u, theirs));
    var x := CurrentItem(written, u);
    PatchSynced(now, K, c, ident, items, k, x);
    assert now.log[|written.log|] == u;
    assert x.etag != CurrentItem(now, u).etag;
  }

  /** The same as one history of the synchroniser: a delta cycle from any older token sees both
      writes, stores the newest token, and our patch then breaks what it achieved. */
  lemma LatePatchAfterCycle(s: Server, K: Kind, c: string, ident: Identities, u: Url, ours: Body, theirs: Body,
                            before: seq<Item>, k: nat, delta: seq<Item>, deleted: set<Url>)
    requires K != Other && u.collection == c && ours.kind == K
    requires ident(u) == Identity(ours.kind, ours.uid) == Identity(theirs.kind, theirs.uid)
    requires Synced(s, K, c, ident, before, k)
    requires var now := Apply(Apply(s, Put(u, ours)), Put(u, theirs));
             CoherentKind(now, K, c, ident) && Collected(now, K, c, ident, k, |now.log|, delta, deleted, map[])
    ensures var written := Apply(s, Put(u, ours)); var now := Apply(written, Put(u, theirs));
            var cached := MergeKind(before, delta, deleted);
            && Synced(now, K, c, ident, cached, |now.log|)
            && !Synced(now, K, c, ident, PatchKind(cached, Some(CurrentItem(written, u)), None), |now.log|)
  {
    hide Synced, Collected, CoherentKind;
    var written := Apply(s, Put(u, ours));
    var now := Apply(written, Put(u, theirs));
    EvolvesApply(s, Put(u, ours));
    EvolvesApply(written, Put(u, theirs));
    EvolvesTransitive(s, written, now);
    SyncedEvolves(s, now, K, c, ident, before, k);
    MergeSynced(now, K, c, ident, k, |now.log|, before, delta, deleted);
    LatePatchLaw(s, K, c, ident, u, ours, theirs, MergeKind(before, delta, deleted), |now.log|);
  }

  /** The smallest such history: an empty server, our Task, its foreign edit, a first delta cycle, our
      patch. */
  lemma StalePatchBreaksPromise(c: string, ident: Identities)
    requires ident(Url(c, "a")) == Identity(Todo, "1")
    ensures var u, empty := Url(c, "a"), Server(map[], []);
            var written := Apply(empty, Put(u, Body(Todo, "1", "ours")));
            var now := Apply(written, Put(u, Body(Todo, "1", "theirs")));
            var cached := MergeKind([], [CurrentItem(now, u)], {});
            && CoherentKind(now, Todo, c, ident)
            && Synced(now, Todo, c, ident, cached, |now.log|)
            && !Synced(now, Todo, c, ident, PatchKind(cached, Some(CurrentItem(written, u)), None), |now.log|)
  {
  }

  /** After a merge that upserts the current item of u, the cache agrees with the server about u if
      and only if every old entry for u has a UID among the upserts. An entry under a UID that u no
      longer has is never upserted and stays behind. */
  lemma GhostCondition(s: Server, K: Kind, u: Url, previous: seq<Item>, upserts: seq<Item>, deleted: set<Url>)
    requires Unique(previous) && Present(s, K, u) && u !in deleted
    requires var y := CurrentItem(s, u); y.uid in IndexOf(upserts) && IndexOf(upserts)[y.uid] == y
    requires forall x :: x in upserts && x.url == u ==> x == CurrentItem(s, u)
    ensures AgreesAt(s, K, MergeKind(previous, upserts, deleted), u) <==>
              forall x :: x in previous && x.url == u ==> x.uid in IndexOf(upserts)
  {
    MergeContents(previous, upserts, deleted);
    IndexOfContents(upserts);
    var merged := MergeKind(previous, upserts, deleted);
    forall x | x in previous && x.url == u && x.uid !in IndexOf(upserts)
      ensures x in merged && x != CurrentItem(s, u)
    {
    }
  }

  /** A history that violates the condition: a Task is scanned, its resource is deleted, and another
      Task is put at the same URL before the next REPORT. The REPORT is correct and lists the URL as
      changed, the former Task stays in the cache, and the URL is not pending any more. */
  lemma ReusedUrlLeavesGhost(s: Server, c: string, u: Url, reborn: Body, previous: seq<Item>)
    requires u.collection == c && Present(s, Todo, u)
    requires reborn.kind == Todo && reborn.uid != "" && reborn.uid != s.resources[u].body.uid
    requires IsScan(s, Todo, c, previous) && Unique(previous)
    ensures var now := Apply(Apply(s, Remove(u)), Put(u, reborn));
            var merged := MergeKind(previous, [CurrentItem(now, u)], {});
            && IsReport(now, c, |s.log|, [Row(u, Some(now.resources[u].etag))])
            && CurrentItem(s, u) in merged && !AgreesAt(now, Todo, merged, u) && !Pending(now, u, |now.log|)
  {
    var now := Apply(Apply(s, Remove(u)), Put(u, reborn));
    var y := CurrentItem(now, u);
    var rows := [Row(u, Some(now.resources[u].etag))];
    assert now.log == s.log + [u, u];
    assert now.log[|s.log|] == u;
    assert rows[0].url == u;
    IndexOfContents([y]);
    assert [y][..0] == [];
    assert IndexOf([y]) == map[y.uid := y];
    MergeContents(previous, [y], {});
    GhostCondition(now, Todo, u, previous, [y], {});
    assert CurrentItem(s, u) in previous;
  }
}
