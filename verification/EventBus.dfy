/** The hook event bus: ordered buckets of subscriptions, and emits that isolate failures and fire
    a one-shot handler at most once. Garbage collection of a handler is the step `Die`. The lock is
    released during an emit, so anything but another emit may happen between two deliveries. */
module EventBuses {
  import opened Prelude

  datatype Handle = Handle(id: nat, event: string, owner: string)

  datatype Sub = Sub(handle: Handle, priority: int, once: bool, order: nat, name: string, handler: nat)

  /** `dead` are the handlers that were collected, `calls` every handler call ever made. */
  datatype Bus = Bus(subs: map<string, seq<Sub>>, nextId: nat, nextOrder: nat, dead: set<nat>, calls: seq<Sub>)

  datatype Action =
    | Subscribe(event: string, handler: nat, priority: int, once: bool, owner: string, name: string)
    | Unsubscribe(handle: Handle)
    | UnregisterOwner(owner: string)
    | Prune
    | Die(handler: nat)

  /** An emit comes with what handlers, other threads and the collector do meanwhile: `during[i]`
      happens between the deliveries i - 1 and i, whatever follows after the last one. */
  datatype Op = Do(action: Action) | Emit(event: string, during: seq<seq<Action>>)

  // ---- buckets ----

  /** Runs before: higher priority first, then registration order. */
  predicate Before(a: Sub, b: Sub) {
    a.priority > b.priority || (a.priority == b.priority && a.order < b.order)
  }

  /** The sort of a bucket: insertion from the back, stable in the given order. */
  function Insert(s: Sub, sorted: seq<Sub>): seq<Sub> {
    if sorted == [] || !Before(s, sorted[|sorted| - 1]) then sorted + [s]
    else Insert(s, sorted[..|sorted| - 1]) + [sorted[|sorted| - 1]]
  }

  function Sort(bucket: seq<Sub>): seq<Sub> {
    if bucket == [] then [] else Insert(bucket[|bucket| - 1], Sort(bucket[..|bucket| - 1]))
  }

  datatype Test = NotSame(owner: string, name: string) | NotId(id: nat) | NotOwner(owner: string) | Alive(dead: set<nat>)

  predicate Keeps(t: Test, s: Sub) {
    match t
    case NotSame(owner, name) => !(s.handle.owner == owner && s.name == name)
    case NotId(id) => s.handle.id != id
    case NotOwner(owner) => s.handle.owner != owner
    case Alive(dead) => s.handler !in dead
  }

  function Filter(bucket: seq<Sub>, t: Test): seq<Sub> {
    if bucket == [] then []
    else
      var init := Filter(bucket[..|bucket| - 1], t);
      if Keeps(t, bucket[|bucket| - 1]) then init + [bucket[|bucket| - 1]] else init
  }

  function BucketOf(subs: map<string, seq<Sub>>, event: string): seq<Sub> {
    if event in subs then subs[event] else []
  }

  /** Store a bucket, or remove it when it became empty. */
  function Put(subs: map<string, seq<Sub>>, event: string, bucket: seq<Sub>): map<string, seq<Sub>> {
    if bucket == [] then subs - {event} else subs[event := bucket]
  }

  /** Filter every bucket and drop the empty ones. */
  function FilterAll(subs: map<string, seq<Sub>>, t: Test): map<string, seq<Sub>> {
    map event | event in subs && Filter(subs[event], t) != [] :: Filter(subs[event], t)
  }

  // ---- operations ----

  function SubscribeOn(b: Bus, event: string, handler: nat, priority: int, once: bool, owner: string, name: string): Bus {
    var s := Sub(Handle(b.nextId, event, owner), priority, once, b.nextOrder, name, handler);
    var bucket := Sort(Filter(BucketOf(b.subs, event), NotSame(owner, name)) + [s]);
    b.(subs := b.subs[event := bucket], nextId := b.nextId + 1, nextOrder := b.nextOrder + 1)
  }

  function UnsubscribeFrom(b: Bus, handle: Handle): Bus {
    if handle.event !in b.subs then b
    else b.(subs := Put(b.subs, handle.event, Filter(b.subs[handle.event], NotId(handle.id))))
  }

  /** Deliver to one subscription. A failing handler counts as called like any other. */
  function DeliverOne(b: Bus, s: Sub): Bus {
    if s.handler in b.dead then UnsubscribeFrom(b, s.handle)
    else
      var c := if s.once then UnsubscribeFrom(b, s.handle) else b;
      c.(calls := c.calls + [s])
  }

  function PruneAll(b: Bus): Bus {
    b.(subs := FilterAll(b.subs, Alive(b.dead)))
  }

  function Act(b: Bus, action: Action): Bus {
    match action
    case Subscribe(event, handler, priority, once, owner, name) => SubscribeOn(b, event, handler, priority, once, owner, name)
    case Unsubscribe(handle) => UnsubscribeFrom(b, handle)
    case UnregisterOwner(owner) => b.(subs := FilterAll(b.subs, NotOwner(owner)))
    case Prune => PruneAll(b)
    case Die(handler) => b.(dead := b.dead + {handler})
  }

  function ActAll(b: Bus, actions: seq<Action>): Bus
    decreases |actions|
  {
    if actions == [] then b else ActAll(Act(b, actions[0]), actions[1..])
  }

  function First(during: seq<seq<Action>>): seq<Action> {
    if during == [] then [] else during[0]
  }

  function Rest(during: seq<seq<Action>>): seq<seq<Action>> {
    if during == [] then [] else during[1..]
  }

  function Flatten(during: seq<seq<Action>>): seq<Action> {
    if during == [] then [] else during[0] + Flatten(during[1..])
  }

  /** Deliver to a copied list of subscriptions, one after the other, amid other actions. */
  function Deliver(b: Bus, list: seq<Sub>, during: seq<seq<Action>>): Bus
    decreases |list|
  {
    if list == [] then ActAll(b, Flatten(during))
    else Deliver(DeliverOne(ActAll(b, First(during)), list[0]), list[1..], Rest(during))
  }

  function EmitOn(b: Bus, event: string, during: seq<seq<Action>>): Bus {
    PruneAll(Deliver(b, BucketOf(b.subs, event), during))
  }

  function Step(b: Bus, op: Op): Bus {
    match op
    case Do(action) => Act(b, action)
    case Emit(event, during) => EmitOn(b, event, during)
  }

  function Run(ops: seq<Op>): Bus {
    if ops == [] then Bus(map[], 1, 1, {}, []) else Step(Run(ops[..|ops| - 1]), ops[|ops| - 1])
  }

  // ---- what sorting and filtering do ----

  /** Strictly ordered: descending priority, then registration order. */
  predicate Ordered(bucket: seq<Sub>) {
    forall i, j :: 0 <= i < j < |bucket| ==> Before(bucket[i], bucket[j])
  }

  lemma {:induction false} InsertLaw(s: Sub, sorted: seq<Sub>)
    requires Ordered(sorted) && forall x :: x in sorted ==> x.order != s.order
    ensures Ordered(Insert(s, sorted))
    ensures forall x :: x in Insert(s, sorted) <==> x == s || x in sorted
  {
    if sorted != [] {
      var init, last := sorted[..|sorted| - 1], sorted[|sorted| - 1];
      assert sorted == init + [last];
      assert forall i :: 0 <= i < |init| ==> sorted[i] == init[i];
      if Before(s, last) {
        InsertLaw(s, init);
        var r := Insert(s, init);
        forall i | 0 <= i < |r| ensures Before(r[i], last) {
          assert r[i] in r;
        }
      } else {
        forall i | 0 <= i < |sorted| ensures Before(sorted[i], s) {
          assert last in sorted;
        }
      }
    }
  }

  predicate DistinctOrders(bucket: seq<Sub>) {
    forall i, j :: 0 <= i < j < |bucket| ==> bucket[i].order != bucket[j].order
  }

  lemma {:induction false} SortLaw(bucket: seq<Sub>)
    requires DistinctOrders(bucket)
    ensures Ordered(Sort(bucket))
    ensures forall x :: x in Sort(bucket) <==> x in bucket
  {
    if bucket != [] {
      var init, last := bucket[..|bucket| - 1], bucket[|bucket| - 1];
      assert bucket == init + [last];
      SortLaw(init);
      InsertLaw(last, Sort(init));
    }
  }

  lemma {:induction false} FilterLaw(bucket: seq<Sub>, t: Test)
    ensures forall x :: x in Filter(bucket, t) <==> x in bucket && Keeps(t, x)
    ensures Ordered(bucket) ==> Ordered(Filter(bucket, t))
  {
    if bucket != [] {
      var init, last := bucket[..|bucket| - 1], bucket[|bucket| - 1];
      assert bucket == init + [last];
      FilterLaw(init, t);
      var r := Filter(init, t);
      if Ordered(bucket) {
        assert forall i, j :: 0 <= i < j < |init| ==> Before(bucket[i], bucket[j]);
        forall i | 0 <= i < |r| ensures Before(r[i], last) {
          assert r[i] in init;
        }
      }
    }
  }

  // ---- the invariant ----

  /** s is registered. */
  predicate Registered(b: Bus, s: Sub) {
    s.handle.event in b.subs && s in b.subs[s.handle.event]
  }

  /** Each bucket is non-empty, ordered, filed under its event, and has one entry per owner and
      handler name. */
  predicate GoodBucket(bucket: seq<Sub>, event: string) {
    && bucket != [] && Ordered(bucket)
    && (forall s :: s in bucket ==> s.handle.event == event)
    && (forall s, t :: s in bucket && t in bucket && s.handle.owner == t.handle.owner && s.name == t.name ==> s == t)
  }

  ghost predicate GoodBuckets(b: Bus) {
    forall event :: event in b.subs ==> GoodBucket(b.subs[event], event)
  }

  /** Ids and orders are issued once, so an id belongs to one subscription for ever. */
  ghost predicate FreshIds(b: Bus) {
    && (forall s :: Registered(b, s) || s in b.calls ==> s.handle.id < b.nextId && s.order < b.nextOrder)
    && (forall s, t ::
          ((Registered(b, s) || s in b.calls) && (Registered(b, t) || t in b.calls) && s.handle.id == t.handle.id) ==> s == t)
    && (forall s, t :: Registered(b, s) && Registered(b, t) && s.order == t.order ==> s == t)
  }

  /** A one-shot subscription that was called is gone, and was called once. */
  ghost predicate OnceOnly(b: Bus) {
    && (forall s :: s in b.calls && s.once ==> !Registered(b, s))
    && (forall i, j :: 0 <= i < j < |b.calls| && b.calls[i].once ==> b.calls[i].handle.id != b.calls[j].handle.id)
  }

  ghost predicate Inv(b: Bus) {
    GoodBuckets(b) && FreshIds(b) && OnceOnly(b)
  }

  lemma ShrinkKeepsInv(b: Bus, subs: map<string, seq<Sub>>)
    requires Inv(b)
    requires forall event :: event in subs ==>
               event in b.subs && subs[event] != [] && Ordered(subs[event]) &&
               forall s :: s in subs[event] ==> s in b.subs[event]
    ensures Inv(b.(subs := subs))
  {
    var c := b.(subs := subs);
    forall event | event in subs ensures GoodBucket(subs[event], event) {
      assert GoodBucket(b.subs[event], event);
    }
    assert forall s :: Registered(c, s) ==> Registered(b, s);
  }

  lemma UnsubscribeLaw(b: Bus, handle: Handle)
    requires Inv(b)
    ensures var c := UnsubscribeFrom(b, handle);
            && Inv(c)
            && forall s :: Registered(c, s) <==> Registered(b, s) && !(s.handle.event == handle.event && s.handle.id == handle.id)
  {
    if handle.event in b.subs {
      assert GoodBucket(b.subs[handle.event], handle.event);
      FilterLaw(b.subs[handle.event], NotId(handle.id));
      var subs := Put(b.subs, handle.event, Filter(b.subs[handle.event], NotId(handle.id)));
      forall event | event in subs
        ensures event in b.subs && subs[event] != [] && Ordered(subs[event]) && forall s :: s in subs[event] ==> s in b.subs[event]
      {
        assert GoodBucket(b.subs[event], event);
      }
      ShrinkKeepsInv(b, subs);
    }
  }

  lemma FilterAllLaw(b: Bus, t: Test)
    requires Inv(b)
    ensures var c := b.(subs := FilterAll(b.subs, t));
            && Inv(c)
            && forall s :: Registered(c, s) <==> Registered(b, s) && Keeps(t, s)
  {
    var subs := FilterAll(b.subs, t);
    forall event | event in b.subs
      ensures forall s :: s in Filter(b.subs[event], t) <==> s in b.subs[event] && Keeps(t, s)
      ensures Ordered(Filter(b.subs[event], t))
    {
      assert GoodBucket(b.subs[event], event);
      FilterLaw(b.subs[event], t);
    }
    ShrinkKeepsInv(b, subs);
  }

  /** Unregistering an owner removes exactly its entries. */
  lemma UnregisterLaw(b: Bus, owner: string)
    requires Inv(b)
    ensures var c := Act(b, UnregisterOwner(owner));
            && Inv(c)
            && forall s :: Registered(c, s) <==> Registered(b, s) && s.handle.owner != owner
  {
    hide FilterAll, Inv, Registered;
    FilterAllLaw(b, NotOwner(owner));
  }

  /** Pruning removes exactly the entries whose handler was collected. */
  lemma PruneLaw(b: Bus)
    requires Inv(b)
    ensures var c := Act(b, Prune);
            && Inv(c)
            && forall s :: Registered(c, s) <==> Registered(b, s) && s.handler !in b.dead
  {
    hide FilterAll, Inv, Registered;
    FilterAllLaw(b, Alive(b.dead));
  }

  /** The new contents of the bucket a subscription goes into. */
  lemma NewBucket(b: Bus, event: string, s: Sub)
    requires Inv(b) && s.handle.event == event && s.order == b.nextOrder
    ensures var t := NotSame(s.handle.owner, s.name);
            var sorted := Sort(Filter(BucketOf(b.subs, event), t) + [s]);
            && GoodBucket(sorted, event)
            && forall x :: x in sorted <==> x == s || (x in BucketOf(b.subs, event) && Keeps(t, x))
  {
    hide Inv, Sort, Filter, Keeps, DistinctOrders, Ordered, Registered;
    var bucket, t := BucketOf(b.subs, event), NotSame(s.handle.owner, s.name);
    var kept := Filter(bucket, t);
    FilterLaw(bucket, t);
    SortableBucket(b, event, kept, s);
    SortLaw(kept + [s]);
    var sorted := Sort(kept + [s]);
    assert forall x :: x in sorted <==> x == s || x in kept;
    assert s in sorted;
    NotSameIsOther(bucket, s, t);
  }

  /** Orders are issued once, so the entries kept and the new one can be told apart by order. */
  lemma SortableBucket(b: Bus, event: string, kept: seq<Sub>, s: Sub)
    requires Inv(b) && s.order == b.nextOrder
    requires forall x :: x in kept ==> x in BucketOf(b.subs, event)
    requires Ordered(BucketOf(b.subs, event)) ==> Ordered(kept)
    ensures DistinctOrders(kept + [s])
    ensures event in b.subs ==> GoodBucket(b.subs[event], event)
  {
    if event in b.subs { assert GoodBucket(b.subs[event], event); }
    forall x | x in kept ensures Registered(b, x) && x.order < b.nextOrder {}
    forall i, j | 0 <= i < j < |kept| ensures kept[i].order != kept[j].order {
      assert Before(kept[i], kept[j]);
      assert Registered(b, kept[i]) && Registered(b, kept[j]);
    }
  }

  lemma NotSameIsOther(bucket: seq<Sub>, s: Sub, t: Test)
    requires t == NotSame(s.handle.owner, s.name)
    ensures forall x :: x in bucket ==> (Keeps(t, x) <==> !(x.handle.owner == s.handle.owner && x.name == s.name))
  {
  }

  /** Subscribing replaces the entry with the same owner and name, and adds nothing else. */
  lemma SubscribeLaw(b: Bus, event: string, handler: nat, priority: int, once: bool, owner: string, name: string)
    requires Inv(b)
    ensures var c := SubscribeOn(b, event, handler, priority, once, owner, name);
            var s := Sub(Handle(b.nextId, event, owner), priority, once, b.nextOrder, name, handler);
            && Inv(c)
            && forall x :: Registered(c, x) <==>
                 x == s || (Registered(b, x) && !(x.handle.event == event && x.handle.owner == owner && x.name == name))
  {
    hide Sort, Filter, GoodBucket, FreshIds, OnceOnly, Keeps;
    var c := SubscribeOn(b, event, handler, priority, once, owner, name);
    var s := Sub(Handle(b.nextId, event, owner), priority, once, b.nextOrder, name, handler);
    NewBucket(b, event, s);
    NotSameIsOther(BucketOf(b.subs, event), s, NotSame(owner, name));
    forall e | e in c.subs ensures GoodBucket(c.subs[e], e) {
      if e != event { assert GoodBucket(b.subs[e], e); }
    }
    forall x
      ensures Registered(c, x) <==>
                x == s || (Registered(b, x) && !(x.handle.event == event && x.handle.owner == owner && x.name == name))
    {
      if x.handle.event == event {
        assert Registered(b, x) <==> x in BucketOf(b.subs, event);
        assert Registered(c, x) <==> x in c.subs[event];
      }
    }
    OneMore(b, c, s);
  }

  /** A subscription with a new id and order may join whatever is left of the old ones. */
  lemma OneMore(b: Bus, c: Bus, s: Sub)
    requires FreshIds(b) && OnceOnly(b)
    requires s.handle.id == b.nextId && s.order == b.nextOrder
    requires c.nextId == b.nextId + 1 && c.nextOrder == b.nextOrder + 1 && c.calls == b.calls
    requires forall x :: Registered(c, x) ==> x == s || Registered(b, x)
    ensures FreshIds(c) && OnceOnly(c)
  {
  }

  // ---- emitting ----

  /** A copied list of subscriptions that may be delivered to: ids tell its entries apart from
      each other and from everything registered or called, and no one-shot entry was called. */
  ghost predicate Deliverable(b: Bus, list: seq<Sub>) {
    && (forall i, j :: 0 <= i < j < |list| ==> list[i].handle.id != list[j].handle.id)
    && (forall s :: s in list ==> s.handle.id < b.nextId && s.order < b.nextOrder)
    && (forall s, t :: s in list && (Registered(b, t) || t in b.calls) && s.handle.id == t.handle.id ==> s == t)
    && (forall s :: s in list && s.once ==> s !in b.calls)
  }

  lemma {:induction false} FilterFront(list: seq<Sub>, t: Test)
    requires list != []
    ensures Filter(list, t) == (if Keeps(t, list[0]) then [list[0]] else []) + Filter(list[1..], t)
  {
    if |list| == 1 {
      assert list[..0] == [] && list[1..] == [];
    } else {
      FilterFront(list[..|list| - 1], t);
      assert list[..|list| - 1][1..] == list[1..][..|list[1..]| - 1];
      assert list[1..][|list[1..]| - 1] == list[|list| - 1];
    }
  }

  /** Calling one live subscription, after removing it if it is one-shot. */
  lemma CallKeepsInv(b: Bus, list: seq<Sub>)
    requires Inv(b) && list != [] && Deliverable(b, list)
    requires list[0].once ==> !Registered(b, list[0])
    ensures var c := b.(calls := b.calls + [list[0]]); Inv(c) && Deliverable(c, list[1..])
  {
    hide GoodBucket, Registered, FreshIds, OnceOnly;
    var s := list[0];
    var c := b.(calls := b.calls + [s]);
    SameRegistered(b, c);
    CallKeepsFresh(b, c, s);
    CallKeepsOnce(b, c, s);
    assert forall x :: x in c.calls <==> x == s || x in b.calls;
    assert list == [s] + list[1..];
  }

  lemma CallKeepsFresh(b: Bus, c: Bus, s: Sub)
    requires FreshIds(b) && c == b.(calls := b.calls + [s])
    requires s.handle.id < b.nextId && s.order < b.nextOrder
    requires forall t :: (Registered(b, t) || t in b.calls) && s.handle.id == t.handle.id ==> s == t
    ensures FreshIds(c)
  {
  }

  lemma CallKeepsOnce(b: Bus, c: Bus, s: Sub)
    requires OnceOnly(b) && c == b.(calls := b.calls + [s]) && (s.once ==> !Registered(b, s) && s !in b.calls)
    requires forall t :: t in b.calls && s.handle.id == t.handle.id ==> s == t
    ensures OnceOnly(c)
  {
  }

  lemma SameRegistered(b: Bus, c: Bus)
    requires c.subs == b.subs
    ensures forall x :: Registered(c, x) <==> Registered(b, x)
  {
  }

  lemma ShrinkKeepsDeliverable(b: Bus, c: Bus, list: seq<Sub>)
    requires Deliverable(b, list) && list != []
    requires c.calls == b.calls && c.nextId == b.nextId && c.nextOrder == b.nextOrder
    requires forall s :: Registered(c, s) ==> Registered(b, s)
    ensures Deliverable(c, list) && Deliverable(c, list[1..])
  {
  }

  /** One delivery: a live entry is called, a dead or one-shot one is removed, nothing else. */
  lemma DeliverOneLaw(b: Bus, list: seq<Sub>)
    requires Inv(b) && list != [] && Deliverable(b, list)
    ensures var s := list[0];
            var c := DeliverOne(b, s);
            && Inv(c) && Deliverable(c, list[1..])
            && c.dead == b.dead && c.nextId == b.nextId && c.nextOrder == b.nextOrder
            && c.calls == b.calls + (if s.handler in b.dead then [] else [s])
            && forall x :: Registered(c, x) <==> Registered(b, x) && !(x == s && (s.handler in b.dead || s.once))
  {
    var s := list[0];
    UnsubscribeLaw(b, s.handle);
    SameHandle(b, list);
    hide Inv, Deliverable;
    var removed := UnsubscribeFrom(b, s.handle);
    hide UnsubscribeFrom;
    if s.handler in b.dead {
      ShrinkKeepsDeliverable(b, removed, list);
      assert b.calls + [] == b.calls;
    } else {
      var c := if s.once then removed else b;
      ShrinkKeepsDeliverable(b, c, list);
      CallKeepsInv(c, list);
      assert forall x :: Registered(c.(calls := c.calls + [s]), x) <==> Registered(c, x);
    }
  }

  lemma SameHandle(b: Bus, list: seq<Sub>)
    requires Deliverable(b, list) && list != []
    ensures forall x :: Registered(b, x) && x.handle.id == list[0].handle.id ==> x == list[0]
    ensures UnsubscribeFrom(b, list[0].handle) == b.(subs := UnsubscribeFrom(b, list[0].handle).subs)
  {
  }

  lemma BucketDeliverable(b: Bus, event: string)
    requires Inv(b)
    ensures Deliverable(b, BucketOf(b.subs, event))
  {
  }

  // ---- what happens between two deliveries ----

  /** The handlers that die in a list of actions. */
  function Died(actions: seq<Action>): set<nat> {
    set a | a in actions && a.Die? :: a.handler
  }

  /** No action calls a handler, and only a new subscription is ever added. */
  lemma ActLaw(b: Bus, action: Action)
    requires Inv(b)
    ensures var c := Act(b, action);
            && Inv(c) && c.calls == b.calls && b.nextId <= c.nextId && b.nextOrder <= c.nextOrder
            && c.dead == b.dead + Died([action])
            && forall x :: Registered(c, x) ==> Registered(b, x) || x.handle.id == b.nextId
  {
    hide Inv, FilterAll, Sort, Filter, Registered;
    match action
    case Subscribe(event, handler, priority, once, owner, name) => SubscribeLaw(b, event, handler, priority, once, owner, name);
    case Unsubscribe(handle) => UnsubscribeLaw(b, handle);
    case UnregisterOwner(owner) => FilterAllLaw(b, NotOwner(owner));
    case Prune => FilterAllLaw(b, Alive(b.dead));
    case Die(handler) =>
      DieKeepsInv(b, handler);
      assert action in [action];
  }

  lemma DieKeepsInv(b: Bus, handler: nat)
    requires Inv(b)
    ensures Inv(b.(dead := b.dead + {handler}))
    ensures forall x :: Registered(b.(dead := b.dead + {handler}), x) <==> Registered(b, x)
  {
  }

  lemma {:induction false} ActAllLaw(b: Bus, actions: seq<Action>, list: seq<Sub>)
    requires Inv(b) && Deliverable(b, list)
    ensures var c := ActAll(b, actions);
            && Inv(c) && Deliverable(c, list) && c.calls == b.calls && c.dead == b.dead + Died(actions)
    decreases |actions|
  {
    hide Inv, Act, Deliverable, Registered;
    if actions != [] {
      ActLaw(b, actions[0]);
      ActKeepsDeliverable(b, Act(b, actions[0]), list);
      ActAllLaw(Act(b, actions[0]), actions[1..], list);
      assert actions == [actions[0]] + actions[1..];
    }
  }

  lemma ActKeepsDeliverable(b: Bus, c: Bus, list: seq<Sub>)
    requires Deliverable(b, list) && c.calls == b.calls && b.nextId <= c.nextId && b.nextOrder <= c.nextOrder
    requires forall x :: Registered(c, x) ==> Registered(b, x) || x.handle.id == b.nextId
    ensures Deliverable(c, list)
  {
  }

  lemma {:induction false} ActAllAppend(b: Bus, xs: seq<Action>, ys: seq<Action>)
    ensures ActAll(b, xs + ys) == ActAll(ActAll(b, xs), ys)
    decreases |xs|
  {
    hide Act;
    if xs == [] {
      assert xs + ys == ys;
    } else {
      assert (xs + ys)[0] == xs[0] && (xs + ys)[1..] == xs[1..] + ys;
      ActAllAppend(Act(b, xs[0]), xs[1..], ys);
    }
  }

  // ---- an emit amid other actions ----

  /** The copied entries that are alive when their turn comes. Subscribing, unsubscribing and
      pruning meanwhile make no difference to it. */
  function LiveAtTurn(list: seq<Sub>, dead: set<nat>, during: seq<seq<Action>>): seq<Sub> {
    if list == [] then []
    else
      var now := dead + Died(First(during));
      (if list[0].handler in now then [] else [list[0]]) + LiveAtTurn(list[1..], now, Rest(during))
  }

  /** The copied entries that their delivery removes: the one-shot ones and those found dead. */
  function Removed(list: seq<Sub>, dead: set<nat>, during: seq<seq<Action>>): set<Sub> {
    if list == [] then {}
    else
      var now := dead + Died(First(during));
      (if list[0].handler in now || list[0].once then {list[0]} else {}) + Removed(list[1..], now, Rest(during))
  }

  lemma {:induction false} RemovedContents(list: seq<Sub>, dead: set<nat>, during: seq<seq<Action>>)
    ensures forall s :: s in Removed(list, dead, during) ==>
              s in list && (s.once || s.handler in dead + Died(Flatten(during)))
    ensures forall s :: s in list && s.once ==> s in Removed(list, dead, during)
  {
    if list != [] {
      var now := dead + Died(First(during));
      RemovedContents(list[1..], now, Rest(during));
      assert list == [list[0]] + list[1..];
      assert Flatten(during) == First(during) + Flatten(Rest(during));
    }
  }

  /** b is a without the entries in `gone`. */
  ghost predicate Trails(b: Bus, a: Bus, gone: set<Sub>) {
    && b.nextId == a.nextId && b.nextOrder == a.nextOrder && b.dead == a.dead
    && (forall s :: s in gone ==> s.handle.id < a.nextId)
    && forall s :: Registered(b, s) <==> Registered(a, s) && s !in gone
  }

  lemma TrailsAct(b: Bus, a: Bus, gone: set<Sub>, action: Action)
    requires Inv(b) && Inv(a) && Trails(b, a, gone)
    ensures Trails(Act(b, action), Act(a, action), gone)
  {
    hide Inv, FilterAll, Sort, Filter, Registered;
    match action
    case Subscribe(event, handler, priority, once, owner, name) =>
      SubscribeLaw(b, event, handler, priority, once, owner, name);
      SubscribeLaw(a, event, handler, priority, once, owner, name);
    case Unsubscribe(handle) =>
      UnsubscribeLaw(b, handle);
      UnsubscribeLaw(a, handle);
    case UnregisterOwner(owner) =>
      FilterAllLaw(b, NotOwner(owner));
      FilterAllLaw(a, NotOwner(owner));
    case Prune =>
      FilterAllLaw(b, Alive(b.dead));
      FilterAllLaw(a, Alive(a.dead));
    case Die(handler) =>
      DieKeepsInv(b, handler);
      DieKeepsInv(a, handler);
  }

  lemma {:induction false} TrailsActAll(b: Bus, a: Bus, gone: set<Sub>, actions: seq<Action>)
    requires Inv(b) && Inv(a) && Trails(b, a, gone)
    ensures Inv(ActAll(a, actions))
    ensures Trails(ActAll(b, actions), ActAll(a, actions), gone)
    decreases |actions|
  {
    hide Inv, Act, Trails;
    if actions != [] {
      ActLaw(b, actions[0]);
      ActLaw(a, actions[0]);
      TrailsAct(b, a, gone, actions[0]);
      TrailsActAll(Act(b, actions[0]), Act(a, actions[0]), gone, actions[1..]);
    }
  }

  lemma TrailsDelivery(b: Bus, a: Bus, gone: set<Sub>, list: seq<Sub>)
    requires Inv(b) && list != [] && Deliverable(b, list) && Trails(b, a, gone)
    ensures var s := list[0];
            Trails(DeliverOne(b, s), a, gone + if s.handler in b.dead || s.once then {s} else {})
  {
    hide DeliverOne, Inv, Registered;
    DeliverOneLaw(b, list);
    assert list[0] in list;
  }

  lemma RegroupCalls(a: seq<Sub>, b: seq<Sub>, c: seq<Sub>)
    ensures (a + b) + c == a + (b + c)
  {
  }

  lemma RegroupSets(a: set<Sub>, b: set<Sub>, c: set<Sub>)
    ensures (a + b) + c == a + (b + c)
  {
  }

  lemma RegroupDead(a: set<nat>, b: set<nat>, c: set<nat>)
    ensures (a + b) + c == a + (b + c)
  {
  }

  /** Delivery calls exactly the copied entries that are alive at their turn, in their order. It
      commutes with whatever happens meanwhile: what it removes on top is `Removed`. */
  lemma {:induction false} DeliverLaw(b: Bus, a: Bus, gone: set<Sub>, list: seq<Sub>, during: seq<seq<Action>>)
    requires Inv(b) && Inv(a) && Deliverable(b, list) && Trails(b, a, gone)
    ensures var c, e := Deliver(b, list, during), ActAll(a, Flatten(during));
            && Inv(c) && c.dead == b.dead + Died(Flatten(during))
            && c.calls == b.calls + LiveAtTurn(list, b.dead, during)
            && Trails(c, e, gone + Removed(list, b.dead, during))
    decreases |list|
  {
    hide Inv, Deliverable, DeliverOne, Trails, Died, Act, ActAll;
    if list == [] {
      ActAllLaw(b, Flatten(during), list);
      TrailsActAll(b, a, gone, Flatten(during));
      assert gone + {} == gone && b.calls + [] == b.calls;
    } else {
      var s, rest := list[0], list[1..];
      ActAllLaw(b, First(during), list);
      TrailsActAll(b, a, gone, First(during));
      var b1, a1 := ActAll(b, First(during)), ActAll(a, First(during));
      DeliverOneLaw(b1, list);
      TrailsDelivery(b1, a1, gone, list);
      var removed: set<Sub> := if s.handler in b1.dead || s.once then {s} else {};
      DeliverLaw(DeliverOne(b1, s), a1, gone + removed, rest, Rest(during));
      ActAllAppend(a, First(during), Flatten(Rest(during)));
      DiedAppend(First(during), Flatten(Rest(during)));
      assert Flatten(during) == First(during) + Flatten(Rest(during));
      RegroupCalls(b.calls, if s.handler in b1.dead then [] else [s], LiveAtTurn(rest, b1.dead, Rest(during)));
      RegroupSets(gone, removed, Removed(rest, b1.dead, Rest(during)));
      RegroupDead(b.dead, Died(First(during)), Died(Flatten(Rest(during))));
    }
  }

  lemma DiedAppend(xs: seq<Action>, ys: seq<Action>)
    ensures Died(xs + ys) == Died(xs) + Died(ys)
  {
  }

  /** A non-nested emit, whatever handlers, other threads and the collector do meanwhile: exactly the
      entries of the copied bucket that are alive at their turn are called, once each and in bucket
      order. Afterwards the bus is what those actions alone would have made of it, without the dead
      entries and without the one-shot ones of the copied bucket. */
  lemma EmitAmidLaw(b: Bus, event: string, during: seq<seq<Action>>)
    requires Inv(b)
    ensures var list, c, e := BucketOf(b.subs, event), EmitOn(b, event, during), ActAll(b, Flatten(during));
            && Inv(c) && c.dead == b.dead + Died(Flatten(during))
            && c.calls == b.calls + LiveAtTurn(list, b.dead, during)
            && forall s :: Registered(c, s) <==>
                 Registered(e, s) && s.handler !in c.dead && !(s.once && s in list)
  {
    hide Inv, Deliver, ActAll, LiveAtTurn, Died, Removed, Registered, FilterAll;
    var list := BucketOf(b.subs, event);
    BucketDeliverable(b, event);
    DeliverLaw(b, b, {}, list, during);
    RemovedContents(list, b.dead, during);
    var d := Deliver(b, list, during);
    FilterAllLaw(d, Alive(d.dead));
  }

  /** An emit during which nothing else happens: exactly the live handlers are called, and exactly
      the live subscriptions remain, minus the event's one-shot ones. */
  lemma EmitLaw(b: Bus, event: string)
    requires Inv(b)
    ensures var c := EmitOn(b, event, []);
            && Inv(c)
            && c.calls == b.calls + Filter(BucketOf(b.subs, event), Alive(b.dead))
            && forall s :: Registered(c, s) <==>
                 Registered(b, s) && s.handler !in b.dead && !(s.once && s.handle.event == event)
  {
    hide EmitOn, Filter;
    EmitAmidLaw(b, event, []);
    QuietTurns(BucketOf(b.subs, event), b.dead);
    assert b.dead + Died(Flatten([])) == b.dead;
    assert forall s :: Registered(b, s) && s.handle.event == event ==> s in BucketOf(b.subs, event);
    if event in b.subs { assert GoodBucket(b.subs[event], event); }
  }

  lemma {:induction false} QuietTurns(list: seq<Sub>, dead: set<nat>)
    ensures LiveAtTurn(list, dead, []) == Filter(list, Alive(dead))
  {
    if list != [] {
      QuietTurns(list[1..], dead);
      FilterFront(list, Alive(dead));
      assert dead + Died(First([])) == dead;
    }
  }

  // ---- every run ----

  lemma {:induction false} RunKeepsInv(ops: seq<Op>)
    ensures Inv(Run(ops))
  {
    hide Inv, Act, EmitOn;
    if ops == [] {
      EmptyBus();
    } else {
      var b := Run(ops[..|ops| - 1]);
      RunKeepsInv(ops[..|ops| - 1]);
      match ops[|ops| - 1]
      case Do(action) => ActLaw(b, action);
      case Emit(event, during) => EmitAmidLaw(b, event, during);
    }
  }

  lemma EmptyBus()
    ensures Inv(Run([]))
  {
  }

  /** After any sequence of operations a bucket is never empty, descends in priority and ascends in
      registration order within a priority, holds one entry per owner and handler name, and every
      id is new; and a one-shot subscription was called at most once in total. */
  lemma BusGuarantees(ops: seq<Op>, event: string)
    ensures var b := Run(ops);
            && (event in b.subs ==>
                  var bucket := b.subs[event];
                  && bucket != []
                  && (forall i, j :: 0 <= i < j < |bucket| ==>
                        bucket[i].priority > bucket[j].priority ||
                        (bucket[i].priority == bucket[j].priority && bucket[i].order < bucket[j].order))
                  && (forall i, j :: 0 <= i < j < |bucket| ==>
                        bucket[i].handle.id != bucket[j].handle.id &&
                        !(bucket[i].handle.owner == bucket[j].handle.owner && bucket[i].name == bucket[j].name))
                  && (forall i :: 0 <= i < |bucket| ==> bucket[i].handle.event == event && bucket[i].handle.id < b.nextId))
            && (forall i, j :: 0 <= i < j < |b.calls| && b.calls[i].handle.id == b.calls[j].handle.id ==> !b.calls[i].once)
  {
    hide Run;
    RunKeepsInv(ops);
    var b := Run(ops);
    if event in b.subs {
      var bucket := b.subs[event];
      assert GoodBucket(bucket, event);
      forall i, j | 0 <= i < j < |bucket|
        ensures bucket[i].handle.id != bucket[j].handle.id
        ensures !(bucket[i].handle.owner == bucket[j].handle.owner && bucket[i].name == bucket[j].name)
      {
        assert bucket[i] in bucket && bucket[j] in bucket && Before(bucket[i], bucket[j]);
        assert Registered(b, bucket[i]) && Registered(b, bucket[j]);
      }
      forall i | 0 <= i < |bucket| ensures bucket[i].handle.event == event && bucket[i].handle.id < b.nextId {
        assert bucket[i] in bucket && Registered(b, bucket[i]);
      }
    }
  }

  lemma RunMore(ops: seq<Op>, op: Op)
    ensures Run(ops + [op]) == Step(Run(ops), op)
  {
    assert (ops + [op])[..|ops|] == ops;
  }

  /** In every reachable state: a new subscription is called by the next emit of its event if and only if
      its handler is alive, and a handler that dies before it is not called. */
  lemma SubscribedIsCalled(ops: seq<Op>, event: string, handler: nat, priority: int, once: bool, owner: string, name: string,
                           other: nat)
    ensures var b := Run(ops);
            var s := Sub(Handle(b.nextId, event, owner), priority, once, b.nextOrder, name, handler);
            var subscribe := Do(Subscribe(event, handler, priority, once, owner, name));
            && (s in Run(ops + [subscribe, Emit(event, [])]).calls <==> handler !in b.dead)
            && (s in Run(ops + [subscribe, Do(Die(other)), Emit(event, [])]).calls <==> handler !in b.dead && handler != other)
  {
    hide Inv, Act, EmitOn, Filter, BucketOf, Registered;
    var b := Run(ops);
    var subscribe := Do(Subscribe(event, handler, priority, once, owner, name));
    var s := Sub(Handle(b.nextId, event, owner), priority, once, b.nextOrder, name, handler);
    var o1 := ops + [subscribe];
    var o2 := o1 + [Do(Die(other))];
    RunKeepsInv(ops);
    RunMore(ops, subscribe);
    RunMore(o1, Do(Die(other)));
    RunMore(o1, Emit(event, []));
    RunMore(o2, Emit(event, []));
    assert ops + [subscribe, Emit(event, [])] == o1 + [Emit(event, [])];
    assert ops + [subscribe, Do(Die(other)), Emit(event, [])] == o2 + [Emit(event, [])];
    hide Run;
    NewEntry(b, event, handler, priority, once, owner, name, other);
  }

  lemma NewEntry(b: Bus, event: string, handler: nat, priority: int, once: bool, owner: string, name: string, other: nat)
    requires Inv(b)
    ensures var s := Sub(Handle(b.nextId, event, owner), priority, once, b.nextOrder, name, handler);
            var c := Act(b, Subscribe(event, handler, priority, once, owner, name));
            var d := Act(c, Die(other));
            && (s in EmitOn(c, event, []).calls <==> handler !in b.dead)
            && (s in EmitOn(d, event, []).calls <==> handler !in b.dead && handler != other)
  {
    hide EmitOn, Inv, Registered;
    var s := Sub(Handle(b.nextId, event, owner), priority, once, b.nextOrder, name, handler);
    SubscribeLaw(b, event, handler, priority, once, owner, name);
    var c := Act(b, Subscribe(event, handler, priority, once, owner, name));
    DieKeepsInv(c, other);
    NotYetCalled(b, s);
    RegisteredIsCalled(c, event, s);
    RegisteredIsCalled(Act(c, Die(other)), event, s);
  }

  lemma NotYetCalled(b: Bus, s: Sub)
    requires Inv(b) && s.handle.id >= b.nextId
    ensures s !in b.calls
  {
  }

  lemma RegisteredIsCalled(b: Bus, event: string, s: Sub)
    requires Inv(b) && Registered(b, s) && s.handle.event == event && s !in b.calls
    ensures s in EmitOn(b, event, []).calls <==> s.handler !in b.dead
  {
    hide EmitOn, Filter, Inv;
    EmitLaw(b, event);
    FilterLaw(BucketOf(b.subs, event), Alive(b.dead));
  }

  /** In every run, the handlers that one emit calls are called in descending priority and, within a
      priority, in registration order, whatever happens during the emit. */
  lemma EmitDescends(ops: seq<Op>, event: string, during: seq<seq<Action>>, i: nat, j: nat)
    requires |Run(ops).calls| <= i < j < |Run(ops + [Emit(event, during)]).calls|
    ensures var calls := Run(ops + [Emit(event, during)]).calls;
            && calls[i].handle.event == calls[j].handle.event == event
            && (calls[i].priority > calls[j].priority ||
                (calls[i].priority == calls[j].priority && calls[i].order < calls[j].order))
  {
    hide LiveAtTurn;
    assert (ops + [Emit(event, during)])[..|ops|] == ops;
    var b := Run(ops);
    RunKeepsInv(ops);
    EmitAmidLaw(b, event, during);
    var list := BucketOf(b.subs, event);
    if event in b.subs { assert GoodBucket(b.subs[event], event); }
    LiveOrdered(list, b.dead, during);
    hide Run;
    var live := LiveAtTurn(list, b.dead, during);
    assert live[i - |b.calls|] in live && live[j - |b.calls|] in live;
  }

  lemma {:induction false} LiveOrdered(list: seq<Sub>, dead: set<nat>, during: seq<seq<Action>>)
    requires Ordered(list)
    ensures Ordered(LiveAtTurn(list, dead, during))
    ensures forall x :: x in LiveAtTurn(list, dead, during) ==> x in list
  {
    hide Died, First, Rest;
    if list != [] {
      var now := dead + Died(First(during));
      LiveOrdered(list[1..], now, Rest(during));
      assert list == [list[0]] + list[1..];
      var rest := LiveAtTurn(list[1..], now, Rest(during));
      forall i | 0 <= i < |rest| ensures Before(list[0], rest[i]) {
        assert rest[i] in list[1..];
      }
    }
  }

  // ---- the class ----

  datatype Report = Report(called: nat, failures: seq<Sub>)

  /** The failures among the handlers that were called. */
  function Failing(called: seq<Sub>, fails: set<nat>): seq<Sub> {
    if called == [] then []
    else (if called[0].handler in fails then [called[0]] else []) + Failing(called[1..], fails)
  }

  /** One round of an emit, in terms of what is left before and after it. */
  lemma FireStep(list: seq<Sub>, i: nat, dead: set<nat>, during: seq<seq<Action>>, fails: set<nat>)
    requires i < |list|
    ensures var s, now := list[i], dead + Died(First(during));
            var before, after := LiveAtTurn(list[i..], dead, during), LiveAtTurn(list[i + 1..], now, Rest(during));
            && list[i..][0] == s && list[i..][1..] == list[i + 1..]
            && before == (if s.handler in now then [] else [s]) + after
            && Failing(before, fails) ==
                 (if s.handler !in now && s.handler in fails then [s] else []) + Failing(after, fails)
  {
    var s, now := list[i], dead + Died(First(during));
    assert list[i..][1..] == list[i + 1..];
    var after := LiveAtTurn(list[i + 1..], now, Rest(during));
    if s.handler in now {
      assert [] + after == after;
    } else {
      assert ([s] + after)[0] == s && ([s] + after)[1..] == after;
    }
  }

  lemma FireEnds(fails: set<nat>, dead: set<nat>, during: seq<seq<Action>>)
    ensures LiveAtTurn([], dead, during) == [] && Failing([], fails) == []
  {
  }

  /** A round of delivery in the emit's own terms. */
  lemma DeliverStep(b: Bus, list: seq<Sub>, i: nat, during: seq<seq<Action>>)
    requires i < |list|
    ensures Deliver(b, list[i..], during) ==
            Deliver(DeliverOne(ActAll(b, First(during)), list[i]), list[i + 1..], Rest(during))
  {
  }

  class EventBus {
    var subscriptions: map<string, seq<Sub>>
    var nextId: nat
    var nextOrder: nat
    var dead: set<nat>
    var calls: seq<Sub>

    constructor ()
      ensures State() == Run([])
    {
      subscriptions, nextId, nextOrder, dead, calls := map[], 1, 1, {}, [];
    }

    function State(): Bus
      reads this
    {
      Bus(subscriptions, nextId, nextOrder, dead, calls)
    }

    method Add(event: string, handler: nat, priority: int, once: bool, owner: string, name: string) returns (handle: Handle)
      modifies this
      ensures handle == Handle(old(nextId), event, owner)
      ensures State() == SubscribeOn(old(State()), event, handler, priority, once, owner, name)
    {
      var bucket := BucketOf(subscriptions, event);
      bucket := Filter(bucket, NotSame(owner, name));
      handle := Handle(nextId, event, owner);
      nextId := nextId + 1;
      bucket := bucket + [Sub(handle, priority, once, nextOrder, name, handler)];
      nextOrder := nextOrder + 1;
      subscriptions := subscriptions[event := Sort(bucket)];
    }

    method Cancel(handle: Handle) returns (removed: bool)
      requires Inv(State())
      modifies this
      ensures State() == UnsubscribeFrom(old(State()), handle)
      ensures removed <==> exists s :: Registered(old(State()), s) && s.handle.event == handle.event && s.handle.id == handle.id
    {
      if handle.event !in subscriptions {
        return false;
      }
      var before := subscriptions[handle.event];
      var bucket := Filter(before, NotId(handle.id));
      FilterLaw(before, NotId(handle.id));
      FilterShorter(before, NotId(handle.id));
      assert GoodBucket(before, handle.event);
      removed := |bucket| != |before|;
      if removed {
        var i :| 0 <= i < |before| && !Keeps(NotId(handle.id), before[i]);
        assert Registered(old(State()), before[i]);
      }
      if bucket == [] {
        subscriptions := subscriptions - {handle.event};
      } else {
        subscriptions := subscriptions[handle.event := bucket];
      }
    }

    method FilterEvery(t: Test)
      modifies this`subscriptions
      ensures State() == old(State()).(subs := FilterAll(old(subscriptions), t))
    {
      var events := subscriptions.Keys;
      var rest := events;
      while rest != {}
        invariant rest <= events
        invariant forall e :: e in rest ==> e in subscriptions && subscriptions[e] == old(subscriptions)[e]
        invariant forall e :: e in events - rest ==>
                    (e in subscriptions <==> Filter(old(subscriptions)[e], t) != []) &&
                    (e in subscriptions ==> subscriptions[e] == Filter(old(subscriptions)[e], t))
        invariant subscriptions.Keys <= events
        decreases rest
      {
        var event :| event in rest;
        rest := rest - {event};
        var bucket := Filter(subscriptions[event], t);
        if bucket == [] {
          subscriptions := subscriptions - {event};
        } else {
          subscriptions := subscriptions[event := bucket];
        }
      }
    }

    method UnregisterByOwner(owner: string)
      modifies this`subscriptions
      ensures State() == Act(old(State()), UnregisterOwner(owner))
    {
      FilterEvery(NotOwner(owner));
    }

    method PruneDead()
      modifies this`subscriptions
      ensures State() == PruneAll(old(State()))
    {
      FilterEvery(Alive(dead));
    }

    /** Deliver to one subscription; `fails` are the handlers that raise. */
    method CallOne(s: Sub, fails: set<nat>, ghost list: seq<Sub>) returns (called: bool, failed: bool)
      requires Inv(State()) && Deliverable(State(), list) && list != [] && list[0] == s
      modifies this
      ensures State() == DeliverOne(old(State()), s)
      ensures called <==> s.handler !in old(dead)
      ensures failed <==> called && s.handler in fails
    {
      SameHandle(State(), list);
      if s.handler in dead {
        var _ := Cancel(s.handle);
        return false, false;
      }
      if s.once {
        var _ := Cancel(s.handle);
      }
      calls := calls + [s];
      called, failed := true, s.handler in fails;
    }

    /** Something that a handler, another thread or the collector does. */
    method Perform(action: Action)
      requires Inv(State())
      modifies this
      ensures State() == Act(old(State()), action) && Inv(State())
    {
      ActLaw(State(), action);
      match action
      case Subscribe(event, handler, priority, once, owner, name) =>
        var _ := Add(event, handler, priority, once, owner, name);
      case Unsubscribe(handle) => var _ := Cancel(handle);
      case UnregisterOwner(owner) => UnregisterByOwner(owner);
      case Prune => PruneDead();
      case Die(handler) => dead := dead + {handler};
    }

    method PerformAll(actions: seq<Action>, ghost list: seq<Sub>)
      requires Inv(State()) && Deliverable(State(), list)
      modifies this
      ensures State() == ActAll(old(State()), actions) && Inv(State()) && Deliverable(State(), list)
      ensures calls == old(calls) && dead == old(dead) + Died(actions)
    {
      hide Inv, Act, Deliverable, Died;
      ActAllLaw(State(), actions, list);
      assert actions[0..] == actions;
      for i := 0 to |actions|
        invariant Inv(State()) && ActAll(State(), actions[i..]) == ActAll(old(State()), actions)
      {
        assert actions[i..][1..] == actions[i + 1..];
        Perform(actions[i]);
      }
    }

    /** Copy the bucket, then deliver without the lock; a failure is recorded and does not stop the
        others. `during` is what happens meanwhile, `fails` are the handlers that raise. */
    method Fire(event: string, during: seq<seq<Action>>, fails: set<nat>) returns (report: Report)
      requires Inv(State())
      modifies this
      ensures State() == EmitOn(old(State()), event, during)
      ensures var live := LiveAtTurn(BucketOf(old(subscriptions), event), old(dead), during);
              report == Report(|live|, Failing(live, fails))
    {
      hide Inv, Deliverable, DeliverOne, Deliver, ActAll, LiveAtTurn, Failing, Died, First, Rest, Flatten;
      var list := BucketOf(subscriptions, event);
      var count, failures, meanwhile := 0, [], during;
      BucketDeliverable(State(), event);
      assert list[0..] == list;
      for i := 0 to |list|
        invariant Inv(State()) && Deliverable(State(), list[i..])
        invariant Deliver(State(), list[i..], meanwhile) == Deliver(old(State()), list, during)
        invariant count + |LiveAtTurn(list[i..], dead, meanwhile)| == |LiveAtTurn(list, old(dead), during)|
        invariant failures + Failing(LiveAtTurn(list[i..], dead, meanwhile), fails) ==
                  Failing(LiveAtTurn(list, old(dead), during), fails)
      {
        FireStep(list, i, dead, meanwhile, fails);
        DeliverStep(State(), list, i, meanwhile);
        PerformAll(First(meanwhile), list[i..]);
        DeliverOneLaw(State(), list[i..]);
        var called, failed := CallOne(list[i], fails, list[i..]);
        meanwhile := Rest(meanwhile);
        count := if called then count + 1 else count;
        failures := if failed then failures + [list[i]] else failures;
      }
      FireEnds(fails, dead, meanwhile);
      DeliverEnds(State(), meanwhile);
      PerformAll(Flatten(meanwhile), []);
      PruneDead();
      report := Report(count, failures);
    }
  }

  lemma DeliverEnds(b: Bus, during: seq<seq<Action>>)
    ensures Deliver(b, [], during) == ActAll(b, Flatten(during)) && Deliverable(b, [])
  {
  }

  lemma {:induction false} FilterShorter(bucket: seq<Sub>, t: Test)
    ensures |Filter(bucket, t)| <= |bucket|
    ensures |Filter(bucket, t)| == |bucket| <==> forall i :: 0 <= i < |bucket| ==> Keeps(t, bucket[i])
  {
    if bucket != [] { FilterShorter(bucket[..|bucket| - 1], t); }
  }
}
