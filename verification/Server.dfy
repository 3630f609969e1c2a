/** The CalDAV server as this client sees it: resources by URL and an append-only change log.
    A sync token is a position in the log, and a sync-collection REPORT lists every URL of the
    collection that the log mentions after that position (sections 3.2, 3.5.1 and 3.5.2 of
    RFC 6578). */
module CalDavServer {
  import opened Prelude

  datatype Kind = Todo | Event | Other

  /** A normalised resource URL: the collection it lies in and its last path segment. */
  datatype Url = Url(collection: string, name: string)

  datatype Body = Body(kind: Kind, uid: string, content: string)

  datatype Resource = Resource(etag: nat, body: Body)

  datatype Server = Server(resources: map<Url, Resource>, log: seq<Url>)

  datatype Edit = Put(url: Url, body: Body) | Remove(url: Url)

  /** The Task collection and the Event collection; they may be the same one. */
  datatype Roles = Roles(tasks: string, events: string)

  /** The UID and component type a URL stands for (section 5.3.2.1 of RFC 4791). */
  datatype Identity = Identity(kind: Kind, uid: string)

  /** One row of a sync REPORT. A removed member carries no DAV:getetag. */
  datatype Row = Row(url: Url, etag: Option<nat>)

  function Apply(s: Server, e: Edit): Server {
    match e
    case Put(u, body) => Server(s.resources[u := Resource(|s.log| + 1, body)], s.log + [u])
    case Remove(u) => if u in s.resources then Server(s.resources - {u}, s.log + [u]) else s
  }

  /** u changed at some log position in lo..hi. */
  predicate Touched(s: Server, u: Url, lo: nat, hi: nat)
    requires hi <= |s.log|
  {
    exists j :: lo <= j < hi && s.log[j] == u
  }

  /** u changed at or after log position k: the next REPORT from token k lists it. */
  predicate Pending(s: Server, u: Url, k: nat) {
    Touched(s, u, k, |s.log|)
  }

  /** t is s after any number of edits: the log only grows, and a URL that the new part of the
      log does not mention kept its resource. */
  ghost predicate Evolves(s: Server, t: Server) {
    && |s.log| <= |t.log|
    && (forall j :: 0 <= j < |s.log| ==> t.log[j] == s.log[j])
    && (forall u :: !Pending(t, u, |s.log|) ==>
          (u in s.resources <==> u in t.resources) &&
          (u in s.resources ==> s.resources[u] == t.resources[u]))
  }

  lemma EvolvesApply(s: Server, e: Edit)
    ensures Evolves(s, Apply(s, e))
  {
    var t := Apply(s, e);
    if t != s {
      assert t.log[|s.log|] == e.url;
    }
  }

  lemma EvolvesReflexive(s: Server)
    ensures Evolves(s, s)
  {
  }

  lemma EvolvesTransitive(a: Server, b: Server, c: Server)
    requires Evolves(a, b) && Evolves(b, c)
    ensures Evolves(a, c)
  {
  }

  /** A later REPORT from the same token still lists whatever an earlier one listed. */
  lemma PendingStays(s: Server, t: Server, u: Url, k: nat)
    requires Evolves(s, t) && Pending(s, u, k)
    ensures Pending(t, u, k)
  {
  }

  /** What the synchroniser needs of the server at every moment: in the configured collections a
      URL keeps its identity, UIDs are non-empty and unique per component type, and a component
      type lives only in the collection configured for it. */
  predicate Coherent(s: Server, roles: Roles, ident: Url -> Identity) {
    && (forall u :: u in s.resources && Configured(roles, u) ==> WellPlaced(s, roles, ident, u))
    && (forall u, v ::
          (u in s.resources && v in s.resources && Configured(roles, u) && Configured(roles, v) &&
           ident(u) == ident(v) && ident(u).kind != Other) ==> u == v)
  }

  predicate Configured(roles: Roles, u: Url) {
    u.collection == roles.tasks || u.collection == roles.events
  }

  predicate WellPlaced(s: Server, roles: Roles, ident: Url -> Identity, u: Url)
    requires u in s.resources
  {
    var body := s.resources[u].body;
    && ident(u) == Identity(body.kind, body.uid)
    && body.uid != ""
    && (body.kind == Todo ==> u.collection == roles.tasks)
    && (body.kind == Event ==> u.collection == roles.events)
  }

  /** rows is a correct answer to a sync-collection REPORT on collection c from token k: exactly
      the members changed since, each once, with the ETag of those still present. */
  ghost predicate IsReport(s: Server, c: string, k: nat, rows: seq<Row>) {
    && (forall i :: 0 <= i < |rows| ==>
          && rows[i].url.collection == c
          && Pending(s, rows[i].url, k)
          && rows[i].etag == (if rows[i].url in s.resources then Some(s.resources[rows[i].url].etag) else None))
    && (forall u: Url :: u.collection == c && Pending(s, u, k) ==> exists i :: 0 <= i < |rows| && rows[i].url == u)
    && (forall i, j :: 0 <= i < j < |rows| ==> rows[i].url != rows[j].url)
  }
}
