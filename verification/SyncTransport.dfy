/** The sync-token transport: seeding tokens, and turning one sync REPORT per collection into
    changed Tasks, changed Events and deleted URLs. */
module SyncTransport {
  import opened Prelude
  import opened CalDavServer
  import opened Snapshots
  import opened SyncInvariant
  import opened CalDavRemote

  datatype SyncError = Stale | Unavailable | AppError(fault: Fault) | Conflict

  datatype TokenState =
    | NoTokens
    | Unsupported(blockedRoles: Roles, retryAt: int)
    | Supported(roles: Roles, tokens: map<string, nat>)

  datatype Changes = Changes(tokens: map<string, nat>, tasks: seq<Item>, events: seq<Item>, deleted: set<Url>)

  /** A REPORT rejected with a stored token means the token is stale; without one, the server
      has no sync-collection at all. */
  function ProtocolError(fault: Fault, hasOldToken: bool): (error: SyncError)
    ensures error == Stale <==> hasOldToken && (fault == ReportError || fault == AuthorizationError)
    ensures error == Unavailable <==> !hasOldToken && fault == ReportError
    ensures error == AppError(fault) <==> error != Stale && error != Unavailable
  {
    if fault == ReportError then (if hasOldToken then Stale else Unavailable)
    else if hasOldToken && fault == AuthorizationError then Stale
    else AppError(fault)
  }

  /** The configured collections, each once, the Task collection first. */
  function Collections(roles: Roles): seq<string> {
    if roles.tasks == roles.events then [roles.tasks] else [roles.tasks, roles.events]
  }

  // ---- rows and loaded resources ----

  function DeletedRows(rows: seq<Row>): seq<Url> {
    if rows == [] then []
    else
      var init := DeletedRows(rows[..|rows| - 1]);
      if rows[|rows| - 1].etag.None? then init + [rows[|rows| - 1].url] else init
  }

  function ChangedRows(rows: seq<Row>): seq<Row> {
    if rows == [] then []
    else
      var init := ChangedRows(rows[..|rows| - 1]);
      if rows[|rows| - 1].etag.Some? then init + [rows[|rows| - 1]] else init
  }

  function Urls(rows: seq<Row>): seq<Url> {
    seq(|rows|, i requires 0 <= i < |rows| => rows[i].url)
  }

  /** No URL twice. */
  predicate DistinctUrls(rows: seq<Row>) {
    forall i, j :: 0 <= i < j < |rows| ==> rows[i].url != rows[j].url
  }

  lemma {:induction false} RowsSplit(rows: seq<Row>)
    requires DistinctUrls(rows)
    ensures forall u :: u in DeletedRows(rows) <==> Row(u, None) in rows
    ensures forall r :: r in ChangedRows(rows) <==> r in rows && r.etag.Some?
    ensures DistinctUrls(ChangedRows(rows))
  {
    if rows != [] {
      var init, last := rows[..|rows| - 1], rows[|rows| - 1];
      assert rows == init + [last];
      RowsSplit(init);
      assert last.etag.None? ==> last == Row(last.url, None);
      var changed := ChangedRows(init);
      forall i | 0 <= i < |changed| ensures changed[i].url != last.url {
        assert changed[i] in rows[..|rows| - 1];
      }
    }
  }

  /** The reported URLs still to load, with the ETag of their row. */
  function ToLoad(rows: seq<Row>): (todo: map<Url, nat>)
    requires forall i :: 0 <= i < |rows| ==> rows[i].etag.Some?
  {
    if rows == [] then map[] else ToLoad(rows[1..])[rows[0].url := rows[0].etag.value]
  }

  lemma {:induction false} ToLoadContents(rows: seq<Row>)
    requires forall i :: 0 <= i < |rows| ==> rows[i].etag.Some?
    requires DistinctUrls(rows)
    ensures forall u :: u in ToLoad(rows) ==> Row(u, Some(ToLoad(rows)[u])) in rows
    ensures forall r :: r in rows ==> r.url in ToLoad(rows)
  {
    if rows != [] {
      ToLoadContents(rows[1..]);
      assert rows == [rows[0]] + rows[1..];
    }
  }

  lemma {:induction false} ToLoadUrls(rows: seq<Row>)
    requires forall i :: 0 <= i < |rows| ==> rows[i].etag.Some?
    ensures forall u :: u in ToLoad(rows) <==> u in Urls(rows)
  {
    if rows != [] {
      ToLoadUrls(rows[1..]);
      assert Urls(rows) == [rows[0].url] + Urls(rows[1..]);
    }
  }

  /** Loading the first row leaves the others. */
  lemma ToLoadStep(rows: seq<Row>)
    requires rows != [] && DistinctUrls(rows)
    requires forall i :: 0 <= i < |rows| ==> rows[i].etag.Some?
    ensures ToLoad(rows) - {rows[0].url} == ToLoad(rows[1..])
    ensures rows[0].url in ToLoad(rows) && ToLoad(rows)[rows[0].url] == rows[0].etag.value
  {
    ToLoadContents(rows[1..]);
  }

  /** What is still to load once the first i rows are done. */
  function TodoFrom(rows: seq<Row>, i: nat): map<Url, nat>
    requires i <= |rows| && forall k :: 0 <= k < |rows| ==> rows[k].etag.Some?
  {
    ToLoad(rows[i..])
  }

  lemma TodoAt(rows: seq<Row>, i: nat)
    requires i < |rows| && DistinctUrls(rows)
    requires forall k :: 0 <= k < |rows| ==> rows[k].etag.Some?
    ensures TodoFrom(rows, i) - {rows[i].url} == TodoFrom(rows, i + 1)
    ensures rows[i].url in TodoFrom(rows, i) && TodoFrom(rows, i)[rows[i].url] == rows[i].etag.value
  {
    ToLoadStep(rows[i..]);
    assert rows[i..][1..] == rows[i + 1..];
  }

  lemma TodoEnds(rows: seq<Row>)
    requires forall k :: 0 <= k < |rows| ==> rows[k].etag.Some?
    ensures TodoFrom(rows, 0) == ToLoad(rows) && TodoFrom(rows, |rows|) == map[]
  {
  }

  /** The rows a multiget left out. */
  function Missing(rows: seq<Row>, keys: set<Url>): seq<Row> {
    if rows == [] then []
    else if rows[0].url in keys then Missing(rows[1..], keys)
    else [rows[0]] + Missing(rows[1..], keys)
  }

  lemma {:induction false} MissingToLoad(rows: seq<Row>, keys: set<Url>)
    requires forall i :: 0 <= i < |rows| ==> rows[i].etag.Some?
    requires DistinctUrls(rows)
    ensures DistinctUrls(Missing(rows, keys))
    ensures forall i :: 0 <= i < |Missing(rows, keys)| ==> Missing(rows, keys)[i] in rows
    ensures forall i :: 0 <= i < |Missing(rows, keys)| ==> Missing(rows, keys)[i].etag.Some?
    ensures ToLoad(Missing(rows, keys)) == ToLoad(rows) - keys
  {
    if rows != [] {
      MissingToLoad(rows[1..], keys);
      assert rows == [rows[0]] + rows[1..];
      if rows[0].url !in keys {
        assert Missing(rows, keys)[1..] == Missing(rows[1..], keys);
      }
    }
  }

  /** The items of one component type among loaded resources; other components are dropped. */
  function ItemsOf(loaded: seq<Loaded>, K: Kind): seq<Item> {
    if loaded == [] then []
    else
      var init := ItemsOf(loaded[..|loaded| - 1], K);
      var last := loaded[|loaded| - 1];
      if last.body.kind == K then init + [ItemOf(last.url, last.etag, last.body)] else init
  }

  lemma {:induction false} ItemsOfAppend(a: seq<Loaded>, b: seq<Loaded>, K: Kind)
    ensures ItemsOf(a + b, K) == ItemsOf(a, K) + ItemsOf(b, K)
  {
    if b == [] {
      assert a + b == a;
    } else {
      var init, last := b[..|b| - 1], b[|b| - 1];
      ItemsOfAppend(a, init, K);
      assert (a + b)[..|a + b| - 1] == a + init;
    }
  }

  lemma {:induction false} ItemsOfNone(loaded: seq<Loaded>, K: Kind)
    requires forall i :: 0 <= i < |loaded| ==> loaded[i].body.kind != K
    ensures ItemsOf(loaded, K) == []
  {
    if loaded != [] { ItemsOfNone(loaded[..|loaded| - 1], K); }
  }

  /** Each loaded body came from the collection configured for its component type. */
  predicate PlacedLoads(roles: Roles, loaded: seq<Loaded>, c: string) {
    forall i :: 0 <= i < |loaded| ==>
      (loaded[i].body.kind == Todo ==> c == roles.tasks) && (loaded[i].body.kind == Event ==> c == roles.events)
  }

  lemma PlacedLoad(s: Server, roles: Roles, ident: Identities, u: Url)
    requires Coherent(s, roles, ident) && u in s.resources && Configured(roles, u)
    ensures s.resources[u].body.kind == Todo ==> u.collection == roles.tasks
    ensures s.resources[u].body.kind == Event ==> u.collection == roles.events
  {
  }

  // ---- the state of one collection's download ----

  /** `Collected` for both component types that collection c serves. */
  ghost predicate Gathering(s: Server, roles: Roles, ident: Identities, c: string, k0: nat, k1: nat,
                            loaded: seq<Loaded>, deleted: set<Url>, todo: map<Url, nat>) {
    && (c == roles.tasks ==> Collected(s, Todo, c, ident, k0, k1, ItemsOf(loaded, Todo), deleted, todo))
    && (c == roles.events ==> Collected(s, Event, c, ident, k0, k1, ItemsOf(loaded, Event), deleted, todo))
  }

  lemma GatheringEvolves(s: Server, t: Server, roles: Roles, ident: Identities, c: string, k0: nat, k1: nat,
                         loaded: seq<Loaded>, deleted: set<Url>, todo: map<Url, nat>)
    requires Gathering(s, roles, ident, c, k0, k1, loaded, deleted, todo) && Evolves(s, t)
    ensures Gathering(t, roles, ident, c, k0, k1, loaded, deleted, todo)
  {
    if c == roles.tasks { CollectedEvolves(s, t, Todo, c, ident, k0, k1, ItemsOf(loaded, Todo), deleted, todo); }
    if c == roles.events { CollectedEvolves(s, t, Event, c, ident, k0, k1, ItemsOf(loaded, Event), deleted, todo); }
  }

  /** One body arrives, or turns out to be gone. */
  lemma GatheringLoad(s: Server, roles: Roles, ident: Identities, c: string, k0: nat, k1: nat,
                      loaded: seq<Loaded>, deleted: set<Url>, todo: map<Url, nat>, u: Url)
    requires Coherent(s, roles, ident)
    requires Gathering(s, roles, ident, c, k0, k1, loaded, deleted, todo) && u in todo
    ensures u in s.resources ==>
              Gathering(s, roles, ident, c, k0, k1, loaded + [Loaded(u, todo[u], s.resources[u].body)], deleted, todo - {u})
    ensures u !in s.resources ==> Gathering(s, roles, ident, c, k0, k1, loaded, deleted + {u}, todo - {u})
  {
    if u in s.resources {
      var l := Loaded(u, todo[u], s.resources[u].body);
      assert (loaded + [l])[..|loaded|] == loaded;
    }
    CoherentForKind(s, roles, ident, Todo);
    CoherentForKind(s, roles, ident, Event);
    if c == roles.tasks { CollectedLoad(s, Todo, c, ident, k0, k1, ItemsOf(loaded, Todo), deleted, todo, u); }
    if c == roles.events { CollectedLoad(s, Event, c, ident, k0, k1, ItemsOf(loaded, Event), deleted, todo, u); }
  }

  /** The rows of a REPORT, as the download code takes them apart. */
  lemma ReportRows(s: Server, c: string, k0: nat, rows: seq<Row>)
    requires IsReport(s, c, k0, rows)
    ensures var changed := ChangedRows(rows);
            && DistinctUrls(changed)
            && (forall i :: 0 <= i < |changed| ==> changed[i].etag.Some? && changed[i].url.collection == c)
            && (forall u :: u in ToLoad(changed) <==> u in Urls(changed))
            && (forall u :: u in Urls(changed) ==> u.collection == c)
            && (forall u :: u in ToLoad(changed) ==> Row(u, Some(ToLoad(changed)[u])) in rows)
            && (forall r :: r in rows && r.etag.Some? ==> r.url in ToLoad(changed))
            && (changed == [] ==> ToLoad(changed) == map[])
    ensures forall u :: u in DeletedRows(rows) <==> Row(u, None) in rows
    ensures forall r :: r in rows ==>
              r.url.collection == c && (r.etag.Some? ==> r.url in s.resources && r.etag.value == s.resources[r.url].etag)
  {
    RowsSplit(rows);
    var changed := ChangedRows(rows);
    hide ChangedRows, DeletedRows, ToLoad;
    assert forall i :: 0 <= i < |changed| ==> changed[i] in changed;
    ToLoadContents(changed);
    forall r | r in rows
      ensures r.url.collection == c
      ensures r.etag.Some? ==> r.url in s.resources && r.etag.value == s.resources[r.url].etag
    {
      var i :| 0 <= i < |rows| && rows[i] == r;
    }
    ToLoadUrls(changed);
  }

  /** Right after a REPORT everything it lists is either gone or still to load. */
  lemma GatheringReport(s: Server, roles: Roles, ident: Identities, c: string, k0: nat, rows: seq<Row>)
    requires k0 <= |s.log| && IsReport(s, c, k0, rows)
    requires forall i :: 0 <= i < |ChangedRows(rows)| ==> ChangedRows(rows)[i].etag.Some?
    ensures Gathering(s, roles, ident, c, k0, |s.log|, [], (set u | u in DeletedRows(rows)), ToLoad(ChangedRows(rows)))
  {
    ReportRows(s, c, k0, rows);
    var todo, gone := ToLoad(ChangedRows(rows)), set u | u in DeletedRows(rows);
    hide ToLoad, ChangedRows, IsReport, DistinctUrls;
    forall r | r in rows && r.etag.None? ensures r.url in gone {
      assert r == Row(r.url, None);
    }
    CollectedReport(s, Todo, c, ident, k0, rows, gone, todo);
    CollectedReport(s, Event, c, ident, k0, rows, gone, todo);
  }

  lemma NothingLoaded(roles: Roles, c: string)
    ensures PlacedLoads(roles, [], c)
  {
  }

  /** The part of a delta that concerns component type K, once its collection was asked. */
  ghost predicate CollectedFor(s: Server, c: string, K: Kind, ident: Identities, since: map<string, nat>,
                               changes: Changes, items: seq<Item>) {
    c in changes.tokens && c in since ==>
      Collected(s, K, c, ident, since[c], changes.tokens[c], items, changes.deleted, map[])
  }

  /** A delta that may be merged: both component types completely collected. */
  ghost predicate AllCollected(s: Server, roles: Roles, ident: Identities, since: map<string, nat>, changes: Changes) {
    && CollectedFor(s, roles.tasks, Todo, ident, since, changes, changes.tasks)
    && CollectedFor(s, roles.events, Event, ident, since, changes, changes.events)
  }

  lemma NothingCollected(s: Server, roles: Roles, ident: Identities, since: map<string, nat>)
    ensures AllCollected(s, roles, ident, since, Changes(map[], [], [], {}))
  {
  }

  lemma CollectedForEvolves(s: Server, t: Server, c: string, K: Kind, ident: Identities, since: map<string, nat>,
                            changes: Changes, items: seq<Item>)
    requires CollectedFor(s, c, K, ident, since, changes, items) && Evolves(s, t)
    ensures CollectedFor(t, c, K, ident, since, changes, items)
  {
    if c in changes.tokens && c in since {
      CollectedEvolves(s, t, K, c, ident, since[c], changes.tokens[c], items, changes.deleted, map[]);
    }
  }

  lemma OpenGathering(s: Server, roles: Roles, ident: Identities, c: string, k0: nat, k1: nat,
                      loaded: seq<Loaded>, deleted: set<Url>)
    requires Gathering(s, roles, ident, c, k0, k1, loaded, deleted, map[])
    ensures c == roles.tasks ==> Collected(s, Todo, c, ident, k0, k1, ItemsOf(loaded, Todo), deleted, map[])
    ensures c == roles.events ==> Collected(s, Event, c, ident, k0, k1, ItemsOf(loaded, Event), deleted, map[])
  {
  }

  lemma NoStray(roles: Roles, loaded: seq<Loaded>, c: string)
    requires PlacedLoads(roles, loaded, c)
    ensures c != roles.tasks ==> ItemsOf(loaded, Todo) == []
    ensures c != roles.events ==> ItemsOf(loaded, Event) == []
  {
  }

  lemma LogGrows(s: Server, t: Server)
    requires Evolves(s, t)
    ensures |s.log| <= |t.log|
  {
  }

  /** What one more collection adds to the delta. */
  function Extend(changes: Changes, c: string, position: nat, loaded: seq<Loaded>, removed: set<Url>): Changes {
    Changes(changes.tokens[c := position], changes.tasks + ItemsOf(loaded, Todo),
            changes.events + ItemsOf(loaded, Event), changes.deleted + removed)
  }

  /** The download of collection c completes the component type that c serves and leaves the
      other one as it was. */
  lemma ExtendCollected(s: Server, role: string, K: Kind, ident: Identities, since: map<string, nat>, changes: Changes,
                        items: seq<Item>, c: string, position: nat, loaded: seq<Loaded>, removed: set<Url>)
    requires CollectedFor(s, role, K, ident, since, changes, items)
    requires c !in changes.tokens && c in since
    requires role !in changes.tokens ==> items == []
    requires forall u :: u in removed ==> u.collection == c
    requires forall u :: u in changes.deleted ==> u.collection in changes.tokens
    requires c == role ==> Collected(s, K, c, ident, since[c], position, ItemsOf(loaded, K), removed, map[])
    requires c != role ==> forall i :: 0 <= i < |loaded| ==> loaded[i].body.kind != K
    ensures CollectedFor(s, role, K, ident, since, Extend(changes, c, position, loaded, removed),
                         items + ItemsOf(loaded, K))
  {
    if c == role {
      assert items + ItemsOf(loaded, K) == ItemsOf(loaded, K);
      if c in since {
        MoreDeleted(s, K, c, ident, since[c], position, ItemsOf(loaded, K), removed, changes.deleted);
        assert removed + changes.deleted == changes.deleted + removed;
      }
    } else {
      ItemsOfNone(loaded, K);
      assert items + [] == items;
      if role in changes.tokens && role in since {
        MoreDeleted(s, K, role, ident, since[role], changes.tokens[role], items, changes.deleted, removed);
      }
    }
  }

  /** Deletions in other collections do not matter. */
  lemma MoreDeleted(s: Server, K: Kind, c: string, ident: Identities, k0: nat, k1: nat, items: seq<Item>,
                    deleted: set<Url>, more: set<Url>)
    requires Collected(s, K, c, ident, k0, k1, items, deleted, map[])
    requires forall u :: u in more ==> u.collection != c
    ensures Collected(s, K, c, ident, k0, k1, items, deleted + more, map[])
  {
  }

  class Transport {
    const remote: Remote

    constructor (remote: Remote)
      ensures this.remote == remote
    {
      this.remote := remote;
    }

    /** One token per configured collection, read without data. */
    method Seed() returns (r: Result<map<string, nat>, SyncError>)
      requires remote.Valid()
      modifies remote
      ensures remote.Moved()
      ensures r.Ok? ==> r.value.Keys == {remote.roles.tasks, remote.roles.events}
      ensures r.Ok? ==> forall c :: c in r.value ==> |old(remote.server).log| <= r.value[c] <= |remote.server.log|
      ensures r.Err? ==> r.error == Unavailable || (r.error.AppError? && !NoFaults(old(remote.turns)))
      ensures NoFaults(old(remote.turns)) && GivesTokens(old(remote.turns)) ==> r.Ok?
    {
      var tokens: map<string, nat> := map[];
      var urls := Collections(remote.roles);
      for i := 0 to |urls|
        invariant remote.Moved()
        invariant tokens.Keys == set j | 0 <= j < i :: urls[j]
        invariant forall c :: c in tokens ==> |old(remote.server).log| <= tokens[c] <= |remote.server.log|
      {
        ghost var before := remote.server;
        var reply := remote.SeedReport(urls[i]);
        EvolvesTransitive(old(remote.server), before, remote.server);
        match reply
        case Err(fault) => return Err(ProtocolError(fault, false));
        case Ok(NoToken) => return Err(Unavailable);
        case Ok(EmulatedToken) => return Err(Unavailable);
        case Ok(Token(position)) => tokens := tokens[urls[i] := position];
      }
      assert tokens.Keys == {remote.roles.tasks, remote.roles.events} by {
        assert urls[0] in tokens.Keys && urls[|urls| - 1] in tokens.Keys;
      }
      r := Ok(tokens);
    }

    /** Load one reported resource on its own; a 404 means it was deleted since the REPORT. */
    method LoadOne(row: Row) returns (r: Result<Option<Loaded>, SyncError>)
      requires remote.Valid() && row.etag.Some?
      modifies remote
      ensures remote.Moved()
      ensures r.Ok? ==> r.value == if row.url in remote.server.resources
                                   then Some(Loaded(row.url, row.etag.value, remote.server.resources[row.url].body))
                                   else None
      ensures r.Err? ==> r.error.AppError? && !NoFaults(old(remote.turns))
    {
      var got := remote.Load(row.url);
      match got
      case Err(fault) => r := Err(AppError(fault));
      case Ok(None) => r := Ok(None);
      case Ok(Some(body)) => r := Ok(Some(Loaded(row.url, row.etag.value, body)));
    }

    /** Load one more row, after what is already loaded or found deleted. */
    method LoadNext(c: string, row: Row, loaded0: seq<Loaded>, deleted0: set<Url>,
                    ghost k0: nat, ghost k1: nat, ghost todo: map<Url, nat>)
      returns (error: Option<SyncError>, loaded: seq<Loaded>, deleted: set<Url>)
      requires remote.Valid()
      requires c == remote.roles.tasks || c == remote.roles.events
      requires row.etag.Some? && row.url.collection == c
      requires row.url in todo && todo[row.url] == row.etag.value
      requires PlacedLoads(remote.roles, loaded0, c)
      requires Gathering(remote.server, remote.roles, remote.ident, c, k0, k1, loaded0, deleted0, todo)
      modifies remote
      ensures remote.Moved()
      ensures PlacedLoads(remote.roles, loaded, c)
      ensures deleted0 <= deleted <= deleted0 + {row.url}
      ensures error.None? ==>
                Gathering(remote.server, remote.roles, remote.ident, c, k0, k1, loaded, deleted, todo - {row.url})
      ensures error.Some? ==> error.value.AppError? && !NoFaults(old(remote.turns))
    {
      hide Gathering, Evolves, Coherent;
      error, loaded, deleted := None, loaded0, deleted0;
      ghost var before := remote.server;
      var got := LoadOne(row);
      GatheringEvolves(before, remote.server, remote.roles, remote.ident, c, k0, k1, loaded0, deleted0, todo);
      if got.Err? {
        error := Some(got.error);
        return;
      }
      GatheringLoad(remote.server, remote.roles, remote.ident, c, k0, k1, loaded0, deleted0, todo, row.url);
      if got.value.Some? {
        PlacedLoad(remote.server, remote.roles, remote.ident, row.url);
        loaded := loaded0 + [got.value.value];
      } else {
        deleted := deleted0 + {row.url};
      }
    }

    /** Load the given rows one by one. */
    method LoadEach(c: string, rows: seq<Row>, loaded0: seq<Loaded>, deleted0: set<Url>, ghost k0: nat, ghost k1: nat)
      returns (error: Option<SyncError>, loaded: seq<Loaded>, deleted: set<Url>)
      requires remote.Valid()
      requires c == remote.roles.tasks || c == remote.roles.events
      requires DistinctUrls(rows)
      requires forall i :: 0 <= i < |rows| ==> rows[i].etag.Some? && rows[i].url.collection == c
      requires PlacedLoads(remote.roles, loaded0, c)
      requires Gathering(remote.server, remote.roles, remote.ident, c, k0, k1, loaded0, deleted0, ToLoad(rows))
      modifies remote
      ensures remote.Moved()
      ensures PlacedLoads(remote.roles, loaded, c)
      ensures forall u :: u in deleted - deleted0 ==> u.collection == c
      ensures error.None? ==> Gathering(remote.server, remote.roles, remote.ident, c, k0, k1, loaded, deleted, map[])
      ensures error.Some? ==> error.value.AppError? && !NoFaults(old(remote.turns))
    {
      EvolvesReflexive(remote.server);
      hide Gathering, Evolves, Coherent, PlacedLoads, TodoFrom, ToLoad, DistinctUrls;
      error, loaded, deleted := None, loaded0, deleted0;
      TodoEnds(rows);
      for i := 0 to |rows|
        invariant remote.Moved()
        invariant PlacedLoads(remote.roles, loaded, c)
        invariant forall u :: u in deleted - deleted0 ==> u.collection == c
        invariant Gathering(remote.server, remote.roles, remote.ident, c, k0, k1, loaded, deleted, TodoFrom(rows, i))
        invariant error.None?
      {
        ghost var before := remote.server;
        TodoAt(rows, i);
        error, loaded, deleted := LoadNext(c, rows[i], loaded, deleted, k0, k1, TodoFrom(rows, i));
        EvolvesTransitive(old(remote.server), before, remote.server);
        if error.Some? {
          return;
        }
      }
    }

    /** Take over one multiget answer: each body with the ETag of its REPORT row. */
    method AdoptBatch(c: string, byUrl: map<Url, nat>, got: seq<Loaded>, ghost deleted: set<Url>, ghost k0: nat, ghost k1: nat)
      returns (loaded: seq<Loaded>, keys: set<Url>)
      requires remote.Valid()
      requires c == remote.roles.tasks || c == remote.roles.events
      requires forall u :: u in byUrl ==> u.collection == c
      requires forall i :: 0 <= i < |got| ==>
                 got[i].url in byUrl && got[i].url in remote.server.resources &&
                 got[i].body == remote.server.resources[got[i].url].body
      requires forall i, j :: 0 <= i < j < |got| ==> got[i].url != got[j].url
      requires Gathering(remote.server, remote.roles, remote.ident, c, k0, k1, [], deleted, byUrl)
      ensures PlacedLoads(remote.roles, loaded, c)
      ensures Gathering(remote.server, remote.roles, remote.ident, c, k0, k1, loaded, deleted, byUrl - keys)
    {
      hide Gathering, Coherent;
      loaded, keys := [], {};
      assert byUrl - {} == byUrl;
      for i := 0 to |got|
        invariant keys == set j | 0 <= j < i :: got[j].url
        invariant PlacedLoads(remote.roles, loaded, c)
        invariant Gathering(remote.server, remote.roles, remote.ident, c, k0, k1, loaded, deleted, byUrl - keys)
      {
        var u := got[i].url;
        PlacedLoad(remote.server, remote.roles, remote.ident, u);
        GatheringLoad(remote.server, remote.roles, remote.ident, c, k0, k1, loaded, deleted, byUrl - keys, u);
        assert byUrl - keys - {u} == byUrl - (keys + {u});
        loaded := loaded + [Loaded(u, byUrl[u], got[i].body)];
        keys := keys + {u};
      }
    }

    /** Turn the rows of a REPORT into loaded resources and deleted URLs: one multiget for the
        changed hrefs, single loads for those it left out or when it is rejected. */
    method LoadChangedResources(c: string, rows: seq<Row>, ghost k0: nat)
      returns (error: Option<SyncError>, loaded: seq<Loaded>, deleted: set<Url>)
      requires remote.Valid()
      requires c == remote.roles.tasks || c == remote.roles.events
      requires k0 <= |remote.server.log| && IsReport(remote.server, c, k0, rows)
      modifies remote
      ensures remote.Moved()
      ensures PlacedLoads(remote.roles, loaded, c)
      ensures forall u :: u in deleted ==> u.collection == c
      ensures error.None? ==>
                Gathering(remote.server, remote.roles, remote.ident, c, k0, |old(remote.server).log|, loaded, deleted, map[])
      ensures error.Some? ==> error.value.AppError? && !NoFaults(old(remote.turns))
    {
      hide Gathering, Evolves, Coherent, IsReport, PlacedLoads, DeletedRows, ChangedRows, ToLoad, Missing, Urls, DistinctUrls;
      ghost var k1 := |remote.server.log|;
      EvolvesReflexive(remote.server);
      ReportRows(remote.server, c, k0, rows);
      GatheringReport(remote.server, remote.roles, remote.ident, c, k0, rows);
      NothingLoaded(remote.roles, c);
      error, loaded, deleted := None, [], set u | u in DeletedRows(rows);
      var changed := ChangedRows(rows);
      if changed == [] {
        return;
      }
      var byUrl := ToLoad(changed);
      ghost var before := remote.server;
      var got := remote.Multiget(Urls(changed));
      GatheringEvolves(before, remote.server, remote.roles, remote.ident, c, k0, k1, [], deleted, byUrl);
      ghost var between := remote.server;
      var missing := changed;
      if got.Ok? {
        var keys;
        loaded, keys := AdoptBatch(c, byUrl, got.value, deleted, k0, k1);
        missing := Missing(changed, keys);
        MissingToLoad(changed, keys);
      }
      error, loaded, deleted := LoadEach(c, missing, loaded, deleted, k0, k1);
      EvolvesTransitive(before, between, remote.server);
    }

    /** Map loaded resources: Tasks and Events, and nothing for any other component. */
    method MapResources(loaded: seq<Loaded>) returns (tasks: seq<Item>, events: seq<Item>)
      ensures tasks == ItemsOf(loaded, Todo) && events == ItemsOf(loaded, Event)
    {
      tasks, events := [], [];
      for i := 0 to |loaded|
        invariant tasks == ItemsOf(loaded[..i], Todo) && events == ItemsOf(loaded[..i], Event)
      {
        var x := loaded[i];
        assert loaded[..i + 1][..i] == loaded[..i];
        match x.body.kind
        case Todo => tasks := tasks + [ItemOf(x.url, x.etag, x.body)];
        case Event => events := events + [ItemOf(x.url, x.etag, x.body)];
        case Other =>
      }
      assert loaded[..|loaded|] == loaded;
    }

    /** Ask one collection what changed since its token, and add the answer to the delta. */
    method ChangesOfOne(c: string, since: map<string, nat>, changes0: Changes)
      returns (error: Option<SyncError>, changes: Changes)
      requires remote.Valid()
      requires c == remote.roles.tasks || c == remote.roles.events
      requires c in since ==> since[c] <= |remote.server.log|
      requires c !in changes0.tokens
      requires remote.roles.tasks !in changes0.tokens ==> changes0.tasks == []
      requires remote.roles.events !in changes0.tokens ==> changes0.events == []
      requires forall u :: u in changes0.deleted ==> u.collection in changes0.tokens
      requires AllCollected(remote.server, remote.roles, remote.ident, since, changes0)
      modifies remote
      ensures remote.Moved()
      ensures error.Some? ==>
                error.value == Stale || error.value == Unavailable || (error.value.AppError? && !NoFaults(old(remote.turns)))
      ensures c in since && NextFault(old(remote.turns)).Some? ==>
                error == Some(ProtocolError(NextFault(old(remote.turns)).value, true)) &&
                remote.turns == Later(old(remote.turns))
      ensures c !in since ==> error == Some(Stale) && remote.turns == old(remote.turns) && remote.server == old(remote.server)
      ensures c in since && NextFault(old(remote.turns)).None? && NextToken(old(remote.turns), 0).NoToken? ==> error == Some(Stale)
      ensures c in since && NextFault(old(remote.turns)).None? && NextToken(old(remote.turns), 0).EmulatedToken? ==>
                error == Some(Unavailable)
      ensures c in since && NoFaults(old(remote.turns)) && GivesTokens(old(remote.turns)) ==> error.None?
      ensures error.None? ==> c in since && changes.tokens.Keys == changes0.tokens.Keys + {c}
      ensures error.None? && remote.roles.tasks !in changes.tokens ==> changes.tasks == []
      ensures error.None? && remote.roles.events !in changes.tokens ==> changes.events == []
      ensures error.None? ==> forall u :: u in changes.deleted ==> u.collection in changes.tokens
      ensures error.None? ==> AllCollected(remote.server, remote.roles, remote.ident, since, changes)
      ensures error.None? ==> forall d :: d in changes0.tokens ==> changes.tokens[d] == changes0.tokens[d]
      ensures error.None? ==> |old(remote.server).log| <= changes.tokens[c]
      ensures error.None? && NoEdits(old(remote.turns)) ==> changes.tokens[c] == |remote.server.log|
    {
      hide Gathering, Evolves, Coherent, IsReport, CollectedFor, Collected;
      changes := changes0;
      if c !in since {
        EvolvesReflexive(remote.server);
        return Some(Stale), changes;
      }
      ghost var s0 := remote.server;
      var reply := remote.SyncReport(c, since[c]);
      ghost var s1 := remote.server;
      LogGrows(s0, s1);
      match reply {
        case Err(fault) => error := Some(ProtocolError(fault, true));
        case Ok(Reply(_, NoToken)) => error := Some(Stale);
        case Ok(Reply(_, EmulatedToken)) => error := Some(Unavailable);
        case Ok(Reply(rows, Token(position))) =>
          var loaded, removed;
          error, loaded, removed := LoadChangedResources(c, rows, since[c]);
          EvolvesTransitive(s0, s1, remote.server);
          if error.Some? { return; }
          var tasks, events := MapResources(loaded);
          CollectedForEvolves(s0, remote.server, remote.roles.tasks, Todo, remote.ident, since, changes0, changes0.tasks);
          CollectedForEvolves(s0, remote.server, remote.roles.events, Event, remote.ident, since, changes0, changes0.events);
          OpenGathering(remote.server, remote.roles, remote.ident, c, since[c], position, loaded, removed);
          ExtendCollected(remote.server, remote.roles.tasks, Todo, remote.ident, since, changes0, changes0.tasks,
                          c, position, loaded, removed);
          ExtendCollected(remote.server, remote.roles.events, Event, remote.ident, since, changes0, changes0.events,
                          c, position, loaded, removed);
          changes := Extend(changes0, c, position, loaded, removed);
          assert changes.tasks == changes0.tasks + tasks && changes.events == changes0.events + events;
          NoStray(remote.roles, loaded, c);
      }
    }

    /** Everything that changed since the stored tokens, with the tokens to store next. */
    method GetChanges(state: TokenState) returns (r: Result<Changes, SyncError>)
      requires remote.Valid() && state.Supported?
      requires state.roles == remote.roles ==>
                 forall c :: c in state.tokens ==> state.tokens[c] <= |remote.server.log|
      modifies remote
      ensures remote.Moved()
      ensures r.Ok? ==>
                && state.roles == remote.roles
                && {remote.roles.tasks, remote.roles.events} <= state.tokens.Keys
                && {remote.roles.tasks, remote.roles.events} == r.value.tokens.Keys
                && AllCollected(remote.server, remote.roles, remote.ident, state.tokens, r.value)
      ensures r.Ok? ==> forall c :: c in r.value.tokens ==> |old(remote.server).log| <= r.value.tokens[c]
      ensures r.Ok? && NoEdits(old(remote.turns)) ==>
                forall c :: c in r.value.tokens ==> r.value.tokens[c] == |remote.server.log|
      ensures r.Err? ==>
                r.error == Stale || r.error == Unavailable || (r.error.AppError? && !NoFaults(old(remote.turns)))
      ensures state.roles != remote.roles ==>
                r == Err(Stale) && remote.turns == old(remote.turns) && remote.server == old(remote.server)
      ensures state.roles == remote.roles && {remote.roles.tasks, remote.roles.events} <= state.tokens.Keys &&
              NoFaults(old(remote.turns)) && GivesTokens(old(remote.turns)) ==>
                r.Ok?
      ensures state.roles == remote.roles && remote.roles.tasks in state.tokens && NextFault(old(remote.turns)).Some? ==>
                r == Err(ProtocolError(NextFault(old(remote.turns)).value, true)) && remote.turns == Later(old(remote.turns))
    {
      hide Evolves, Coherent, AllCollected;
      EvolvesReflexive(remote.server);
      if state.roles != remote.roles {
        return Err(Stale);
      }
      var changes := Changes(map[], [], [], {});
      NothingCollected(remote.server, remote.roles, remote.ident, state.tokens);
      var urls := Collections(remote.roles);
      for i := 0 to |urls|
        invariant remote.Moved()
        invariant i == 0 ==> remote.turns == old(remote.turns)
        invariant i > 0 ==> NextFault(old(remote.turns)).None?
        invariant forall c :: c in state.tokens ==> state.tokens[c] <= |remote.server.log|
        invariant changes.tokens.Keys == (set j | 0 <= j < i :: urls[j]) <= state.tokens.Keys
        invariant remote.roles.tasks !in changes.tokens ==> changes.tasks == []
        invariant remote.roles.events !in changes.tokens ==> changes.events == []
        invariant forall u :: u in changes.deleted ==> u.collection in changes.tokens
        invariant AllCollected(remote.server, remote.roles, remote.ident, state.tokens, changes)
        invariant |old(remote.server).log| <= |remote.server.log|
        invariant forall c :: c in changes.tokens ==> |old(remote.server).log| <= changes.tokens[c]
        invariant NoEdits(old(remote.turns)) ==>
                    forall c :: c in changes.tokens ==> changes.tokens[c] == |remote.server.log|
      {
        var error;
        ghost var before := remote.server;
        error, changes := ChangesOfOne(urls[i], state.tokens, changes);
        LogGrows(before, remote.server);
        EvolvesTransitive(old(remote.server), before, remote.server);
        if error.Some? {
          return Err(error.value);
        }
      }
      assert urls[0] in changes.tokens.Keys && urls[|urls| - 1] in changes.tokens.Keys;
      r := Ok(changes);
    }
  }
}
