/** The cached snapshot and the pure operations on it: merging a delta, patching one object,
    indexing by UID and comparing two snapshots. */
module Snapshots {
  import opened Prelude
  import opened CalDavServer

  /** A cached Task or Event with its transport metadata. */
  datatype Item = Item(uid: string, url: Url, etag: nat, content: string)

  datatype Snapshot = Snapshot(tasks: seq<Item>, events: seq<Item>, syncedAt: int, cacheUpdatedAt: Option<int>)

  /** The item a resource maps to. */
  function ItemOf(u: Url, etag: nat, body: Body): Item {
    Item(body.uid, u, etag, body.content)
  }

  /** No empty UID and no UID twice: what every stored list satisfies. */
  predicate Unique(items: seq<Item>) {
    && (forall i :: 0 <= i < |items| ==> items[i].uid != "")
    && (forall i, j :: 0 <= i < j < |items| ==> items[i].uid != items[j].uid)
  }

  /** The items whose URL was not reported as deleted, in order. */
  function DropUrls(items: seq<Item>, deleted: set<Url>): seq<Item> {
    if items == [] then []
    else
      var rest := DropUrls(items[..|items| - 1], deleted);
      var last := items[|items| - 1];
      if last.url in deleted then rest else rest + [last]
  }

  /** The items with another UID, in order. */
  function DropUid(items: seq<Item>, uid: string): seq<Item> {
    if items == [] then []
    else
      var rest := DropUid(items[..|items| - 1], uid);
      var last := items[|items| - 1];
      if last.uid == uid then rest else rest + [last]
  }

  /** Assignment into an insertion-ordered dictionary: an existing UID keeps its position. */
  function Assign(items: seq<Item>, x: Item): seq<Item> {
    if items == [] then [x]
    else if items[0].uid == x.uid then [x] + items[1..]
    else [items[0]] + Assign(items[1..], x)
  }

  /** Assign every item in turn; an item without UID is skipped. */
  function AssignAll(items: seq<Item>, xs: seq<Item>): seq<Item> {
    if xs == [] then items
    else
      var init := AssignAll(items, xs[..|xs| - 1]);
      var last := xs[|xs| - 1];
      if last.uid == "" then init else Assign(init, last)
  }

  /** The delta merge: drop what was deleted by URL, rebuild the list as a dictionary keyed by
      UID, then upsert. */
  function MergeKind(previous: seq<Item>, upserts: seq<Item>, deleted: set<Url>): seq<Item> {
    AssignAll(AssignAll([], DropUrls(previous, deleted)), upserts)
  }

  /** Write-through of one object: every other item keeps its place, the object goes last. */
  function PatchKind(previous: seq<Item>, obj: Option<Item>, removeId: Option<string>): seq<Item> {
    var kept := if removeId.None? then previous else DropUid(previous, removeId.value);
    if obj.None? then kept else DropUid(kept, obj.value.uid) + [obj.value]
  }

  /** The dictionary view of a list: the last item with a UID wins, empty UIDs are skipped. */
  function IndexOf(items: seq<Item>): map<string, Item> {
    if items == [] then map[]
    else
      var last := items[|items| - 1];
      var m := IndexOf(items[..|items| - 1]);
      if last.uid == "" then m else m[last.uid := last]
  }

  // ---- what dropping does ----

  lemma {:induction false} DropUrlsContents(items: seq<Item>, deleted: set<Url>)
    ensures forall x :: x in DropUrls(items, deleted) <==> x in items && x.url !in deleted
    ensures Unique(items) ==> Unique(DropUrls(items, deleted))
  {
    if items != [] {
      var init, last := items[..|items| - 1], items[|items| - 1];
      assert items == init + [last];
      DropUrlsContents(init, deleted);
      var rest := DropUrls(init, deleted);
      assert forall i :: 0 <= i < |rest| ==> rest[i] in rest;
    }
  }

  lemma {:induction false} DropUidContents(items: seq<Item>, uid: string)
    ensures forall x :: x in DropUid(items, uid) <==> x in items && x.uid != uid
    ensures Unique(items) ==> Unique(DropUid(items, uid))
  {
    if items != [] {
      var init, last := items[..|items| - 1], items[|items| - 1];
      assert items == init + [last];
      DropUidContents(init, uid);
      var rest := DropUid(init, uid);
      assert forall i :: 0 <= i < |rest| ==> rest[i] in rest;
    }
  }

  // ---- lists without repeated UIDs are their dictionary ----

  /** The dictionary holds items of the list under their own UID, and every UID of the list. */
  lemma {:induction false} IndexOfContents(items: seq<Item>)
    ensures forall uid :: uid in IndexOf(items) ==>
              IndexOf(items)[uid] in items && IndexOf(items)[uid].uid == uid && uid != ""
    ensures forall x :: x in items && x.uid != "" ==> x.uid in IndexOf(items)
  {
    if items != [] {
      var init, last := items[..|items| - 1], items[|items| - 1];
      assert items == init + [last];
      IndexOfContents(init);
    }
  }

  /** For a duplicate-free list, membership and dictionary lookup are the same thing. */
  lemma IndexOfUnique(items: seq<Item>)
    requires Unique(items)
    ensures forall x :: x in items <==> (x.uid in IndexOf(items) && IndexOf(items)[x.uid] == x)
  {
  }

  lemma {:induction false} AssignContents(items: seq<Item>, x: Item)
    requires Unique(items) && x.uid != ""
    ensures Unique(Assign(items, x))
    ensures forall y :: y in Assign(items, x) <==> y == x || (y in items && y.uid != x.uid)
  {
    if items != [] {
      var rest := items[1..];
      assert items == [items[0]] + rest;
      assert Unique(rest) && items[0] !in rest;
      if items[0].uid != x.uid {
        AssignContents(rest, x);
        var tail := Assign(rest, x);
        forall j | 0 <= j < |tail| ensures tail[j].uid != items[0].uid {
          assert tail[j] in tail;
        }
      } else {
        assert Assign(items, x) == [x] + rest;
      }
    }
  }

  lemma AssignIndex(items: seq<Item>, x: Item)
    requires Unique(items) && x.uid != ""
    ensures Unique(Assign(items, x))
    ensures IndexOf(Assign(items, x)) == IndexOf(items)[x.uid := x]
  {
    AssignContents(items, x);
    IndexOfContents(items);
    IndexOfContents(Assign(items, x));
    IndexOfUnique(items);
    IndexOfUnique(Assign(items, x));
  }

  /** Upserting is map override, and never creates a duplicate. */
  lemma {:induction false} AssignAllIndex(items: seq<Item>, xs: seq<Item>)
    requires Unique(items)
    ensures Unique(AssignAll(items, xs))
    ensures IndexOf(AssignAll(items, xs)) == IndexOf(items) + IndexOf(xs)
  {
    if xs != [] {
      var n := |xs| - 1;
      AssignAllIndex(items, xs[..n]);
      if xs[n].uid != "" {
        AssignIndex(AssignAll(items, xs[..n]), xs[n]);
      }
    }
  }

  /** The merge as a whole: undeleted old entries, overridden by the upserts; whatever the
      inputs, the result has no empty and no repeated UID. */
  lemma MergeIndex(previous: seq<Item>, upserts: seq<Item>, deleted: set<Url>)
    ensures Unique(MergeKind(previous, upserts, deleted))
    ensures IndexOf(MergeKind(previous, upserts, deleted)) ==
            IndexOf(DropUrls(previous, deleted)) + IndexOf(upserts)
  {
    var kept := DropUrls(previous, deleted);
    AssignAllIndex([], kept);
    AssignAllIndex(AssignAll([], kept), upserts);
    assert map[] + IndexOf(kept) == IndexOf(kept);
  }

  /** Membership in a merge, for a duplicate-free previous list. */
  lemma MergeContents(previous: seq<Item>, upserts: seq<Item>, deleted: set<Url>)
    requires Unique(previous)
    ensures var m := MergeKind(previous, upserts, deleted);
            Unique(m) &&
            forall x :: x in m <==>
              if x.uid in IndexOf(upserts) then IndexOf(upserts)[x.uid] == x
              else x in previous && x.url !in deleted
  {
    var kept := DropUrls(previous, deleted);
    MergeIndex(previous, upserts, deleted);
    DropUrlsContents(previous, deleted);
    IndexOfUnique(kept);
    IndexOfUnique(MergeKind(previous, upserts, deleted));
  }

  /** Replaying a delta that was already merged changes nothing: a restart with the older token
      is harmless. */
  lemma MergeIdempotent(previous: seq<Item>, upserts: seq<Item>, deleted: set<Url>)
    ensures var once := MergeKind(previous, upserts, deleted);
            IndexOf(MergeKind(once, upserts, deleted)) == IndexOf(once)
  {
    var once := MergeKind(previous, upserts, deleted);
    var twice := MergeKind(once, upserts, deleted);
    var kept := DropUrls(previous, deleted);
    MergeIndex(previous, upserts, deleted);
    MergeContents(once, upserts, deleted);
    DropUrlsContents(previous, deleted);
    IndexOfContents(kept);
    IndexOfUnique(once);
    IndexOfUnique(twice);
    forall x ensures x in once <==> x in twice {
      if x in once && x.uid !in IndexOf(upserts) {
        assert IndexOf(kept)[x.uid] == x;
      }
    }
    assert forall uid :: uid in IndexOf(once) <==> uid in IndexOf(twice) by { SameItemsSameIndex(once, twice); }
    SameItemsSameIndex(once, twice);
  }

  /** Duplicate-free lists with the same items have the same dictionary. */
  lemma SameItemsSameIndex(a: seq<Item>, b: seq<Item>)
    requires Unique(a) && Unique(b)
    requires forall x :: x in a <==> x in b
    ensures IndexOf(a) == IndexOf(b)
  {
    IndexOfContents(a);
    IndexOfContents(b);
    IndexOfUnique(a);
    IndexOfUnique(b);
  }

  /** Patching one object: the target UID is replaced or removed and nothing else moves. */
  lemma PatchContents(previous: seq<Item>, obj: Option<Item>, removeId: Option<string>)
    requires Unique(previous)
    requires obj.Some? ==> obj.value.uid != ""
    ensures Unique(PatchKind(previous, obj, removeId))
    ensures forall x :: x in PatchKind(previous, obj, removeId) <==>
              obj == Some(x) ||
              (x in previous && removeId != Some(x.uid) && (obj.Some? ==> obj.value.uid != x.uid))
  {
    var kept := if removeId.None? then previous else DropUid(previous, removeId.value);
    if removeId.Some? { DropUidContents(previous, removeId.value); }
    if obj.Some? {
      DropUidContents(kept, obj.value.uid);
      var others := DropUid(kept, obj.value.uid);
      assert forall i :: 0 <= i < |others| ==> others[i] in others;
    }
  }
}
