/** The safety argument of the synchroniser, independent of how its code is arranged: what a
    cached list and a token promise about the server, and why every step keeps the promise while
    other clients go on editing. Everything is said for one component type K, whose resources
    live in one collection c. */
module SyncInvariant {
  import opened Prelude
  import opened CalDavServer
  import opened Snapshots

  type Identities = Url -> Identity

  predicate Present(s: Server, K: Kind, u: Url) {
    u in s.resources && s.resources[u].body.kind == K
  }

  function CurrentItem(s: Server, u: Url): Item
    requires u in s.resources
  {
    ItemOf(u, s.resources[u].etag, s.resources[u].body)
  }

  /** The list says about u exactly what the server says. */
  ghost predicate AgreesAt(s: Server, K: Kind, items: seq<Item>, u: Url) {
    && (forall x :: x in items && x.url == u ==> Present(s, K, u) && x == CurrentItem(s, u))
    && (Present(s, K, u) ==> CurrentItem(s, u) in items)
  }

  /** Every item of the list lies in c and carries the identity of its URL. */
  ghost predicate Placed(items: seq<Item>, K: Kind, c: string, ident: Identities) {
    forall x :: x in items ==> x.url.collection == c && ident(x.url) == Identity(K, x.uid) && x.uid != ""
  }

  /** The promise: each URL of c either agrees with the cached list or will be in the server's
      next answer to token k. Nothing is ever lost. */
  ghost predicate Synced(s: Server, K: Kind, c: string, ident: Identities, items: seq<Item>, k: nat) {
    && k <= |s.log|
    && Unique(items)
    && Placed(items, K, c, ident)
    && forall u: Url :: u.collection == c && !Pending(s, u, k) ==> AgreesAt(s, K, items, u)
  }

  /** The server hypotheses, for one component type in one collection. */
  ghost predicate CoherentKind(s: Server, K: Kind, c: string, ident: Identities) {
    && (forall u :: u in s.resources && u.collection == c ==>
          ident(u) == Identity(s.resources[u].body.kind, s.resources[u].body.uid) && s.resources[u].body.uid != "")
    && (forall u, v ::
          (Present(s, K, u) && Present(s, K, v) && u.collection == c == v.collection &&
           s.resources[u].body.uid == s.resources[v].body.uid) ==> u == v)
  }

  /** The collection configured for a component type. */
  function RoleOf(roles: Roles, K: Kind): string {
    if K == Todo then roles.tasks else roles.events
  }

  lemma CoherentForKind(s: Server, roles: Roles, ident: Identities, K: Kind)
    requires Coherent(s, roles, ident) && K != Other
    ensures CoherentKind(s, K, RoleOf(roles, K), ident)
  {
  }

  // ---- edits by other clients, and older tokens ----

  lemma SyncedEvolves(s: Server, t: Server, K: Kind, c: string, ident: Identities, items: seq<Item>, k: nat)
    requires Synced(s, K, c, ident, items, k) && Evolves(s, t)
    ensures Synced(t, K, c, ident, items, k)
  {
    forall u: Url | u.collection == c && !Pending(t, u, k)
      ensures AgreesAt(t, K, items, u)
    {
      if Pending(s, u, k) { PendingStays(s, t, u, k); }
      assert !Pending(t, u, |s.log|);
      assert AgreesAt(s, K, items, u);
    }
  }

  /** A crash between the snapshot write and the token write leaves an older token: it promises
      less, so the promise still holds. */
  lemma SyncedOlderToken(s: Server, K: Kind, c: string, ident: Identities, items: seq<Item>, older: nat, k: nat)
    requires Synced(s, K, c, ident, items, k) && older <= k
    ensures Synced(s, K, c, ident, items, older)
  {
  }

  // ---- the full scan ----

  /** items is a correct answer to a calendar-query for component type K in collection c. */
  ghost predicate IsScan(s: Server, K: Kind, c: string, items: seq<Item>) {
    && (forall x :: x in items ==> x.url.collection == c && Present(s, K, x.url) && x == CurrentItem(s, x.url))
    && (forall u: Url :: u.collection == c && Present(s, K, u) ==> CurrentItem(s, u) in items)
    && (forall i, j :: 0 <= i < j < |items| ==> items[i].url != items[j].url)
  }

  /** A scan agrees everywhere, so it is safe under any token seeded before it. */
  lemma ScanSynced(s: Server, K: Kind, c: string, ident: Identities, items: seq<Item>, k: nat)
    requires CoherentKind(s, K, c, ident) && IsScan(s, K, c, items) && k <= |s.log|
    ensures Synced(s, K, c, ident, items, k)
  {
    forall i, j | 0 <= i < j < |items|
      ensures items[i].uid != items[j].uid
    {
      assert items[i] in items && items[j] in items;
    }
    forall i | 0 <= i < |items| ensures items[i].uid != "" { assert items[i] in items; }
    forall u: Url | u.collection == c ensures AgreesAt(s, K, items, u) {}
  }

  /** A list that is synced under the server's newest token is what a full scan would return. */
  lemma SyncedNowIsScan(s: Server, K: Kind, c: string, ident: Identities, items: seq<Item>, scan: seq<Item>)
    requires CoherentKind(s, K, c, ident)
    requires Synced(s, K, c, ident, items, |s.log|) && IsScan(s, K, c, scan)
    ensures IndexOf(items) == IndexOf(scan)
  {
    ScanSynced(s, K, c, ident, scan, |s.log|);
    forall x ensures x in items <==> x in scan {
      assert x.url.collection == c ==> AgreesAt(s, K, items, x.url) && AgreesAt(s, K, scan, x.url);
    }
    SameItemsSameIndex(items, scan);
  }

  // ---- collecting a delta ----

  /** A delta being collected: the REPORT ran at log position k1 from token k0; `items` and
      `deleted` are what was loaded since, `todo` the reported URLs still to load with the ETag
      of their REPORT row. Bodies are loaded later than the REPORT, so nothing is promised about
      a URL that changed after k1: it is in the next REPORT. */
  ghost predicate Collected(s: Server, K: Kind, c: string, ident: Identities, k0: nat, k1: nat,
                            items: seq<Item>, deleted: set<Url>, todo: map<Url, nat>) {
    && k0 <= k1 <= |s.log|
    && (forall x :: x in items ==> Gathered(s, K, c, ident, k0, k1, x))
    && (forall u: Url :: u.collection == c && Touched(s, u, k0, k1) && !Pending(s, u, k1) ==>
          Accounted(s, K, items, deleted, todo, u))
    && (forall u :: u in deleted && u.collection == c && !Pending(s, u, k1) ==> u !in s.resources)
    && (forall u :: u in todo ==> u.collection == c && Touched(s, u, k0, k1))
    && (forall u :: u in todo && !Pending(s, u, k1) ==> u in s.resources && s.resources[u].etag == todo[u])
  }

  /** A loaded item is a reported URL's, is current unless the URL changed since the REPORT, and
      shares its UID with no other unchanged resource. */
  ghost predicate Gathered(s: Server, K: Kind, c: string, ident: Identities, k0: nat, k1: nat, x: Item)
    requires k0 <= k1 <= |s.log|
  {
    && x.url.collection == c
    && Touched(s, x.url, k0, k1)
    && ident(x.url) == Identity(K, x.uid)
    && x.uid != ""
    && (!Pending(s, x.url, k1) ==> Present(s, K, x.url) && x == CurrentItem(s, x.url))
    && (forall u :: u != x.url && u.collection == c && !Pending(s, u, k1) && Present(s, K, u) ==>
          s.resources[u].body.uid != x.uid)
  }

  /** A reported URL that did not change since the REPORT was loaded, found deleted, or is next. */
  ghost predicate Accounted(s: Server, K: Kind, items: seq<Item>, deleted: set<Url>, todo: map<Url, nat>, u: Url) {
    u in todo || if u in s.resources then Present(s, K, u) ==> CurrentItem(s, u) in items else u in deleted
  }

  lemma CollectedEvolves(s: Server, t: Server, K: Kind, c: string, ident: Identities, k0: nat, k1: nat,
                         items: seq<Item>, deleted: set<Url>, todo: map<Url, nat>)
    requires Collected(s, K, c, ident, k0, k1, items, deleted, todo) && Evolves(s, t)
    ensures Collected(t, K, c, ident, k0, k1, items, deleted, todo)
  {
    forall u: Url | !Pending(t, u, k1)
      ensures !Pending(s, u, k1) && (u in s.resources <==> u in t.resources) &&
              (u in s.resources ==> s.resources[u] == t.resources[u])
    {
      if Pending(s, u, k1) { PendingStays(s, t, u, k1); }
      assert !Pending(t, u, |s.log|);
    }
    forall u: Url ensures Touched(s, u, k0, k1) <==> Touched(t, u, k0, k1) {
      assert forall j :: k0 <= j < k1 ==> s.log[j] == t.log[j];
    }
    forall x | x in items ensures Gathered(t, K, c, ident, k0, k1, x) {
      assert Gathered(s, K, c, ident, k0, k1, x);
    }
    forall u: Url | u.collection == c && Touched(t, u, k0, k1) && !Pending(t, u, k1)
      ensures Accounted(t, K, items, deleted, todo, u)
    {
      assert Accounted(s, K, items, deleted, todo, u);
    }
  }

  /** Right after the REPORT: present rows are to be loaded, absent ones are deletions. */
  lemma CollectedReport(s: Server, K: Kind, c: string, ident: Identities, k0: nat, rows: seq<Row>,
                        deleted: set<Url>, todo: map<Url, nat>)
    requires k0 <= |s.log| && IsReport(s, c, k0, rows)
    requires forall u :: u in todo ==> u in s.resources && Row(u, Some(todo[u])) in rows
    requires forall r :: r in rows && r.etag.Some? ==> r.url in todo
    requires forall u :: u in deleted && u.collection == c ==> Row(u, None) in rows
    requires forall r :: r in rows && r.etag.None? ==> r.url in deleted
    ensures Collected(s, K, c, ident, k0, |s.log|, [], deleted, todo)
  {
  }

  /** Loading the body of u now, whatever happened to it since the REPORT. */
  lemma CollectedLoad(s: Server, K: Kind, c: string, ident: Identities, k0: nat, k1: nat,
                      items: seq<Item>, deleted: set<Url>, todo: map<Url, nat>, u: Url)
    requires Collected(s, K, c, ident, k0, k1, items, deleted, todo) && u in todo
    requires CoherentKind(s, K, c, ident)
    ensures u in s.resources && s.resources[u].body.kind == K ==>
              Collected(s, K, c, ident, k0, k1, items + [ItemOf(u, todo[u], s.resources[u].body)], deleted, todo - {u})
    ensures u in s.resources && s.resources[u].body.kind != K ==>
              Collected(s, K, c, ident, k0, k1, items, deleted, todo - {u})
    ensures u !in s.resources ==> Collected(s, K, c, ident, k0, k1, items, deleted + {u}, todo - {u})
  {
    var items' := if Present(s, K, u) then items + [ItemOf(u, todo[u], s.resources[u].body)] else items;
    var deleted' := if u in s.resources then deleted else deleted + {u};
    forall x | x in items' ensures Gathered(s, K, c, ident, k0, k1, x) {
      if x !in items {
        assert x == ItemOf(u, todo[u], s.resources[u].body);
      }
    }
    forall v: Url | v.collection == c && Touched(s, v, k0, k1) && !Pending(s, v, k1)
      ensures Accounted(s, K, items', deleted', todo - {u}, v)
    {
      assert Accounted(s, K, items, deleted, todo, v);
      if v == u && Present(s, K, u) {
        assert items'[|items|] == CurrentItem(s, u);
      }
    }
  }

  /** Merging a completely collected delta into a list synced at k0 gives one synced at k1. */
  lemma MergeSynced(s: Server, K: Kind, c: string, ident: Identities, k0: nat, k1: nat,
                    previous: seq<Item>, items: seq<Item>, deleted: set<Url>)
    requires CoherentKind(s, K, c, ident)
    requires Synced(s, K, c, ident, previous, k0)
    requires Collected(s, K, c, ident, k0, k1, items, deleted, map[])
    ensures Synced(s, K, c, ident, MergeKind(previous, items, deleted), k1)
  {
    var merged := MergeKind(previous, items, deleted);
    MergeContents(previous, items, deleted);
    IndexOfContents(items);
    assert forall x :: x in items ==> Gathered(s, K, c, ident, k0, k1, x);
    forall u: Url | u.collection == c && !Pending(s, u, k1)
      ensures AgreesAt(s, K, merged, u)
    {
      if Touched(s, u, k0, k1) {
        MergedReported(s, K, c, ident, k0, k1, previous, items, deleted, u);
      } else {
        MergedUnreported(s, K, c, ident, k0, k1, previous, items, deleted, u);
      }
    }
  }

  lemma MergedReported(s: Server, K: Kind, c: string, ident: Identities, k0: nat, k1: nat,
                       previous: seq<Item>, items: seq<Item>, deleted: set<Url>, u: Url)
    requires CoherentKind(s, K, c, ident)
    requires Synced(s, K, c, ident, previous, k0)
    requires Collected(s, K, c, ident, k0, k1, items, deleted, map[])
    requires u.collection == c && Touched(s, u, k0, k1) && !Pending(s, u, k1)
    ensures AgreesAt(s, K, MergeKind(previous, items, deleted), u)
  {
    var merged := MergeKind(previous, items, deleted);
    MergeContents(previous, items, deleted);
    IndexOfContents(items);
    assert Accounted(s, K, items, deleted, map[], u);
    if Present(s, K, u) {
      var y := CurrentItem(s, u);
      var z := IndexOf(items)[y.uid];
      assert Gathered(s, K, c, ident, k0, k1, z);
      assert z == y;
    }
    forall x | x in merged && x.url == u
      ensures Present(s, K, u) && x == CurrentItem(s, u)
    {
      if x in items {
        assert Gathered(s, K, c, ident, k0, k1, x);
      }
    }
  }

  lemma MergedUnreported(s: Server, K: Kind, c: string, ident: Identities, k0: nat, k1: nat,
                         previous: seq<Item>, items: seq<Item>, deleted: set<Url>, u: Url)
    requires CoherentKind(s, K, c, ident)
    requires Synced(s, K, c, ident, previous, k0)
    requires Collected(s, K, c, ident, k0, k1, items, deleted, map[])
    requires u.collection == c && !Touched(s, u, k0, k1) && !Pending(s, u, k1)
    ensures AgreesAt(s, K, MergeKind(previous, items, deleted), u)
  {
    var merged := MergeKind(previous, items, deleted);
    MergeContents(previous, items, deleted);
    IndexOfContents(items);
    assert !Pending(s, u, k0);
    assert AgreesAt(s, K, previous, u);
    forall x | x in items ensures x.url != u && (Present(s, K, u) ==> x.uid != s.resources[u].body.uid) {
      assert Gathered(s, K, c, ident, k0, k1, x);
    }
    if Present(s, K, u) {
      assert CurrentItem(s, u).uid !in IndexOf(items);
    }
  }

  // ---- write-through ----

  /** Write-through keeps the promise exactly when the patched object is the server's current
      one (or will be reported anyway) and no unreported resource elsewhere has its UID. */
  lemma PatchSynced(s: Server, K: Kind, c: string, ident: Identities, items: seq<Item>, k: nat, x: Item)
    requires CoherentKind(s, K, c, ident)
    requires Synced(s, K, c, ident, items, k)
    requires x.url.collection == c && ident(x.url) == Identity(K, x.uid) && x.uid != ""
    ensures Synced(s, K, c, ident, PatchKind(items, Some(x), None), k) <==>
              (Pending(s, x.url, k) || (Present(s, K, x.url) && x == CurrentItem(s, x.url))) &&
              (forall u: Url :: u != x.url && u.collection == c && !Pending(s, u, k) && Present(s, K, u) ==>
                 s.resources[u].body.uid != x.uid)
  {
    var patched := PatchKind(items, Some(x), None);
    PatchContents(items, Some(x), None);
    assert x in patched;
    if Synced(s, K, c, ident, patched, k) {
      assert !Pending(s, x.url, k) ==> AgreesAt(s, K, patched, x.url);
      forall u: Url | u != x.url && u.collection == c && !Pending(s, u, k) && Present(s, K, u)
        ensures s.resources[u].body.uid != x.uid
      {
        assert AgreesAt(s, K, patched, u);
      }
    }
    if (Pending(s, x.url, k) || (Present(s, K, x.url) && x == CurrentItem(s, x.url))) &&
       (forall u: Url :: u != x.url && u.collection == c && !Pending(s, u, k) && Present(s, K, u) ==>
          s.resources[u].body.uid != x.uid) {
      forall u: Url | u.collection == c && !Pending(s, u, k) ensures AgreesAt(s, K, patched, u) {
        assert AgreesAt(s, K, items, u);
      }
    }
  }

  /** Removing a UID keeps the promise exactly when no unreported resource has that UID. */
  lemma RemoveSynced(s: Server, K: Kind, c: string, ident: Identities, items: seq<Item>, k: nat, uid: string)
    requires CoherentKind(s, K, c, ident)
    requires Synced(s, K, c, ident, items, k)
    ensures Synced(s, K, c, ident, PatchKind(items, None, Some(uid)), k) <==>
              (forall u: Url :: u.collection == c && !Pending(s, u, k) && Present(s, K, u) ==>
                 s.resources[u].body.uid != uid)
  {
    var patched := PatchKind(items, None, Some(uid));
    PatchContents(items, None, Some(uid));
    if Synced(s, K, c, ident, patched, k) {
      forall u: Url | u.collection == c && !Pending(s, u, k) && Present(s, K, u)
        ensures s.resources[u].body.uid != uid
      {
        assert AgreesAt(s, K, patched, u);
      }
    }
    if forall u: Url :: u.collection == c && !Pending(s, u, k) && Present(s, K, u) ==>
         s.resources[u].body.uid != uid {
      forall u: Url | u.collection == c && !Pending(s, u, k) ensures AgreesAt(s, K, patched, u) {
        assert AgreesAt(s, K, items, u);
      }
    }
  }
}
