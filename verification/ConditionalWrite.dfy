/** Updating an object from a snapshot without reading it again: the write carries the ETag the
    object was read with, and the server commits it only on exactly that version
    (If-Match, section 13.1.1 of RFC 9110). */
module ConditionalWrite {
  import opened Prelude
  import opened TodoMapping

  /** Tasks and events have their own editors. */
  datatype Kind = TaskObject | EventObject

  function EditProps(kind: Kind, props: Props, changes: Changes, at: int): Result<Props, EditError> {
    if kind == TaskObject then EditTask(props, changes, at) else EditEvent(props, changes)
  }

  /** What a snapshot-based write was computed from. */
  datatype Base = Base(kind: Kind, etag: nat, changes: Changes, at: int)

  /** One version of a resource; None is its deletion. `base` is set for our own writes. */
  datatype Version = Version(url: string, props: Option<Props>, base: Option<Base>)

  /** An object in a client's hands, with the transport facts it carries, if any. */
  datatype LiveObject = LiveObject(kind: Kind, url: string, collection: string, etag: Option<nat>, raw: Option<Props>)

  /** `history` is every version the server ever committed; the ETag of history[i] is i + 1.
      `held` is every object any client ever got hold of; `cache` is the patched snapshot. */
  datatype World = World(history: seq<Version>, held: set<LiveObject>, cache: map<string, LiveObject>)

  datatype Outcome = NotApplicable | Refused(error: EditError) | Conflict | Updated(obj: LiveObject)

  datatype Op =
    | ForeignPut(url: string, props: Props)
    | ForeignDelete(url: string)
    | Read(kind: Kind, url: string, collection: string)
    | Update(obj: LiveObject, changes: Changes, at: int, tellsEtag: bool)

  /** The index of the latest version of a URL. */
  function Latest(history: seq<Version>, url: string): (r: Option<nat>)
    ensures r.Some? ==> r.value < |history| && history[r.value].url == url &&
                        forall i :: r.value < i < |history| ==> history[i].url != url
    ensures r.None? ==> forall i :: 0 <= i < |history| ==> history[i].url != url
  {
    if history == [] then None
    else if history[|history| - 1].url == url then Some(|history| - 1)
    else Latest(history[..|history| - 1], url)
  }

  /** The ETag of the resource, if it exists. */
  function CurrentEtag(history: seq<Version>, url: string): Option<nat> {
    match Latest(history, url)
    case None => None
    case Some(i) => if history[i].props.Some? then Some(i + 1) else None
  }

  /** The object carries everything a direct conditional write needs. */
  predicate Prepared(obj: LiveObject) {
    && obj.raw.Some? && obj.etag.Some? && obj.url != "" && obj.collection != ""
    && obj.collection + "/" <= obj.url
  }

  function OutcomeOf(w: World, obj: LiveObject, changes: Changes, at: int, tellsEtag: bool): Outcome {
    if !Prepared(obj) then NotApplicable
    else if changes == map[] then Updated(obj)
    else match EditProps(obj.kind, obj.raw.value, changes, at)
         case Err(e) => Refused(e)
         case Ok(props) =>
           if CurrentEtag(w.history, obj.url) != obj.etag then Conflict
           else Updated(obj.(raw := Some(props), etag := if tellsEtag then Some(|w.history| + 1) else obj.etag))
  }

  /** Anything but a success leaves server and cache alone. */
  function UpdateStep(w: World, obj: LiveObject, changes: Changes, at: int, tellsEtag: bool): World {
    match OutcomeOf(w, obj, changes, at, tellsEtag)
    case Updated(result) =>
      World(if changes == map[] then w.history
            else w.history + [Version(obj.url, result.raw, Some(Base(obj.kind, obj.etag.value, changes, at)))],
            w.held + {result}, w.cache[obj.url := result])
    case _ => w
  }

  function ReadStep(w: World, kind: Kind, url: string, collection: string): World {
    match CurrentEtag(w.history, url)
    case None => w
    case Some(etag) =>
      w.(held := w.held + {LiveObject(kind, url, collection, Some(etag), w.history[Latest(w.history, url).value].props)})
  }

  function Step(w: World, op: Op): World {
    match op
    case ForeignPut(url, props) => w.(history := w.history + [Version(url, Some(props), None)])
    case ForeignDelete(url) => w.(history := w.history + [Version(url, None, None)])
    case Read(kind, url, collection) => ReadStep(w, kind, url, collection)
    case Update(obj, changes, at, tellsEtag) =>
      if obj in w.held then UpdateStep(w, obj, changes, at, tellsEtag) else w
  }

  function Run(ops: seq<Op>): World {
    if ops == [] then World([], {}, map[]) else Step(Run(ops[..|ops| - 1]), ops[|ops| - 1])
  }

  /** The writer itself: rebuild the resource, edit it, save it under its ETag, patch the cache. */
  class Writer {
    var history: seq<Version>
    var held: set<LiveObject>
    var cache: map<string, LiveObject>

    constructor ()
      ensures State() == World([], {}, map[])
    {
      history, held, cache := [], {}, map[];
    }

    function State(): World
      reads this
    {
      World(history, held, cache)
    }

    method Save(url: string, etag: nat, props: Props, base: Base) returns (committed: bool)
      modifies this`history
      ensures committed <==> CurrentEtag(old(history), url) == Some(etag)
      ensures history == if committed then old(history) + [Version(url, Some(props), Some(base))] else old(history)
    {
      committed := CurrentEtag(history, url) == Some(etag);
      if committed {
        history := history + [Version(url, Some(props), Some(base))];
      }
    }

    method UpdateFromSnapshot(obj: LiveObject, changes: Changes, at: int, tellsEtag: bool) returns (outcome: Outcome)
      modifies this
      ensures outcome == OutcomeOf(old(State()), obj, changes, at, tellsEtag)
      ensures State() == UpdateStep(old(State()), obj, changes, at, tellsEtag)
    {
      if !Prepared(obj) {
        return NotApplicable;
      }
      var result := obj;
      if changes != map[] {
        var resource := new Component(obj.raw.value);
        var error;
        if obj.kind == TaskObject {
          error := resource.Edit(changes, at);
        } else {
          error := resource.EditAsEvent(changes);
        }
        if error.Some? {
          return Refused(error.value);
        }
        var before := |history|;
        var committed := Save(obj.url, obj.etag.value, resource.props, Base(obj.kind, obj.etag.value, changes, at));
        if !committed {
          return Conflict;
        }
        result := obj.(raw := Some(resource.props), etag := if tellsEtag then Some(before + 1) else obj.etag);
      }
      held := held + {result};
      cache := cache[obj.url := result];
      outcome := Updated(result);
    }
  }

  // ---- no lost update ----

  predicate Superseded(history: seq<Version>, etag: nat, url: string)
    requires etag <= |history|
  {
    exists j :: etag <= j < |history| && history[j].url == url
  }

  /** An object's body is that of the version its ETag names, or that version is history. */
  predicate Genuine(history: seq<Version>, obj: LiveObject) {
    obj.raw.Some? && obj.etag.Some? ==>
      && 1 <= obj.etag.value <= |history|
      && history[obj.etag.value - 1].url == obj.url
      && (history[obj.etag.value - 1].props == obj.raw || Superseded(history, obj.etag.value, obj.url))
  }

  /** history[i], if it is one of our writes, is the edit of the version right before it. */
  predicate EditsPredecessor(history: seq<Version>, i: nat)
    requires i < |history|
  {
    history[i].base.Some? ==>
      var b := history[i].base.value;
      && 1 <= b.etag <= i
      && history[b.etag - 1].url == history[i].url
      && (forall j :: b.etag <= j < i ==> history[j].url != history[i].url)
      && history[b.etag - 1].props.Some? && history[i].props.Some?
      && EditProps(b.kind, history[b.etag - 1].props.value, b.changes, b.at) == Ok(history[i].props.value)
  }

  ghost predicate Inv(w: World) {
    && (forall obj :: obj in w.held ==> Genuine(w.history, obj))
    && (forall i :: 0 <= i < |w.history| ==> EditsPredecessor(w.history, i))
  }

  lemma AppendKeepsInv(w: World, v: Version)
    requires Inv(w)
    requires EditsPredecessor(w.history + [v], |w.history|)
    ensures Inv(w.(history := w.history + [v]))
  {
    var h := w.history + [v];
    forall obj | obj in w.held ensures Genuine(h, obj) {
      if obj.raw.Some? && obj.etag.Some? && Superseded(w.history, obj.etag.value, obj.url) {
        var j :| obj.etag.value <= j < |w.history| && w.history[j].url == obj.url;
        assert h[j].url == obj.url;
      }
    }
    forall i | 0 <= i < |h| ensures EditsPredecessor(h, i) {
      if i < |w.history| { assert EditsPredecessor(w.history, i); }
    }
  }

  lemma UpdateKeepsInv(w: World, obj: LiveObject, changes: Changes, at: int, tellsEtag: bool)
    requires Inv(w) && obj in w.held
    ensures Inv(UpdateStep(w, obj, changes, at, tellsEtag))
  {
    var outcome := OutcomeOf(w, obj, changes, at, tellsEtag);
    if outcome.Updated? && changes != map[] {
      assert Genuine(w.history, obj);
      var v := Version(obj.url, outcome.obj.raw, Some(Base(obj.kind, obj.etag.value, changes, at)));
      assert !Superseded(w.history, obj.etag.value, obj.url);
      AppendKeepsInv(w, v);
      var h := w.history + [v];
      assert h[|w.history|] == v;
      assert Genuine(h, outcome.obj);
    }
  }

  lemma {:induction false} RunKeepsInv(ops: seq<Op>)
    ensures Inv(Run(ops))
  {
    if ops != [] {
      var w := Run(ops[..|ops| - 1]);
      RunKeepsInv(ops[..|ops| - 1]);
      match ops[|ops| - 1]
      case ForeignPut(url, props) => AppendKeepsInv(w, Version(url, Some(props), None));
      case ForeignDelete(url) => AppendKeepsInv(w, Version(url, None, None));
      case Read(kind, url, collection) =>
      case Update(obj, changes, at, tellsEtag) =>
        if obj in w.held { UpdateKeepsInv(w, obj, changes, at, tellsEtag); }
    }
  }

  /** Whatever an edit does not mention is in q as it was in p. The completion properties of a task
      belong together: they stay when neither status nor completion is mentioned. */
  ghost predicate KeepsUnmentioned(kind: Kind, p: Props, q: Props, changes: Changes) {
    match kind
    case TaskObject =>
      && (forall name :: name !in TASK_PROPERTIES && name != "COMPLETED" && name != "PERCENT-COMPLETE" ==>
            Get(q, name) == Get(p, name))
      && Kept(p, q, changes, "summary", "SUMMARY") && Kept(p, q, changes, "description", "DESCRIPTION")
      && Kept(p, q, changes, "start", "DTSTART") && Kept(p, q, changes, "due", "DUE")
      && Kept(p, q, changes, "priority", "PRIORITY") && Kept(p, q, changes, "categories", "CATEGORIES")
      && ("status" !in changes && "completed" !in changes ==>
            && Get(q, "STATUS") == Get(p, "STATUS")
            && Get(q, "PERCENT-COMPLETE") == Get(p, "PERCENT-COMPLETE")
            && Kept(p, q, changes, "completed_at", "COMPLETED"))
    case EventObject =>
      && (forall name :: name !in {"SUMMARY", "DTSTART", "DTEND", "LOCATION", "DESCRIPTION", "CATEGORIES"} ==>
            Get(q, name) == Get(p, name))
      && Kept(p, q, changes, "summary", "SUMMARY") && Kept(p, q, changes, "start", "DTSTART")
      && Kept(p, q, changes, "end", "DTEND") && Kept(p, q, changes, "location", "LOCATION")
      && Kept(p, q, changes, "description", "DESCRIPTION") && Kept(p, q, changes, "categories", "CATEGORIES")
  }

  predicate Kept(p: Props, q: Props, changes: Changes, field: string, name: string) {
    field !in changes ==> Get(q, name) == Get(p, name)
  }

  lemma EditKeepsUnmentioned(kind: Kind, props: Props, changes: Changes, at: int)
    requires EditProps(kind, props, changes, at).Ok?
    ensures KeepsUnmentioned(kind, props, EditProps(kind, props, changes, at).value, changes)
  {
    hide EditTaskProps, ReplaceFields, Get;
    if kind == TaskObject {
      TaskFieldsLaw(props, changes);
      EditByProperty(props, changes, at);
    } else {
      EventReadsBack(props, changes);
    }
  }

  /** Over every interleaving with other clients, each of our writes is the edit of the version
      right before it, so whatever another client wrote in a field we did not mention is still
      there. */
  lemma NoForeignChangeLost(ops: seq<Op>, i: nat)
    requires i < |Run(ops).history| && Run(ops).history[i].base.Some?
    ensures var h := Run(ops).history;
            var b := h[i].base.value;
            && 1 <= b.etag <= i && h[b.etag - 1].url == h[i].url
            && (forall j :: b.etag - 1 < j < i ==> h[j].url != h[i].url)
            && h[b.etag - 1].props.Some? && h[i].props.Some?
            && Ok(h[i].props.value) ==
                 (match b.kind
                  case TaskObject => EditTask(h[b.etag - 1].props.value, b.changes, b.at)
                  case EventObject => EditEvent(h[b.etag - 1].props.value, b.changes))
            && KeepsUnmentioned(b.kind, h[b.etag - 1].props.value, h[i].props.value, b.changes)
  {
    hide Run, EditTask, EditEvent, KeepsUnmentioned;
    RunKeepsInv(ops);
    WriteKeepsUnmentioned(Run(ops).history, i);
  }

  lemma WriteKeepsUnmentioned(h: seq<Version>, i: nat)
    requires i < |h| && EditsPredecessor(h, i) && h[i].base.Some?
    ensures var b := h[i].base.value;
            KeepsUnmentioned(b.kind, h[b.etag - 1].props.value, h[i].props.value, b.changes)
  {
    hide EditProps, KeepsUnmentioned;
    var b := h[i].base.value;
    EditKeepsUnmentioned(b.kind, h[b.etag - 1].props.value, b.changes, b.at);
  }

  /** A conflict, a refused change set or an unprepared object changes neither server nor cache. */
  lemma FailureChangesNothing(w: World, obj: LiveObject, changes: Changes, at: int, tellsEtag: bool)
    ensures !OutcomeOf(w, obj, changes, at, tellsEtag).Updated? ==> UpdateStep(w, obj, changes, at, tellsEtag) == w
    ensures Prepared(obj) && changes != map[] && changes.Keys <= (if obj.kind == TaskObject then TASK_KEYS else EVENT_KEYS) ==>
              (OutcomeOf(w, obj, changes, at, tellsEtag).Conflict? <==> CurrentEtag(w.history, obj.url) != obj.etag)
  {
  }

  /** An object just read from a collection that contains its URL can always be updated at once: the
      outcome depends on the change set alone. */
  lemma UpdateAfterRead(w: World, kind: Kind, url: string, collection: string, changes: Changes, at: int, tellsEtag: bool)
    requires CurrentEtag(w.history, url).Some? && collection != "" && collection + "/" <= url
    ensures var now := ReadStep(w, kind, url, collection);
            var obj := LiveObject(kind, url, collection, CurrentEtag(w.history, url),
                                  w.history[Latest(w.history, url).value].props);
            && now.history == w.history && now.held == w.held + {obj}
            && (OutcomeOf(now, obj, changes, at, tellsEtag).Updated? <==>
                  changes.Keys <= (if kind == TaskObject then TASK_KEYS else EVENT_KEYS))
            && (OutcomeOf(now, obj, changes, at, tellsEtag).Updated? || OutcomeOf(now, obj, changes, at, tellsEtag).Refused?)
  {
    hide EditTaskProps, ReplaceFields;
  }

  /** And an object without body, ETag, URL or collection, or of another collection, never is. */
  lemma UnpreparedIsNotApplicable(w: World, obj: LiveObject, changes: Changes, at: int, tellsEtag: bool)
    ensures OutcomeOf(w, obj, changes, at, tellsEtag).NotApplicable? <==>
              obj.raw == None || obj.etag == None || obj.url == "" || obj.collection == "" ||
              !(obj.collection + "/" <= obj.url)
  {
    hide EditProps;
  }

  /** The cache holds the server's current version after an update exactly when the update wrote
      something (and the server told the new ETag), or the object given to an empty update was
      still current. An empty update of a stale object makes the cache stale. */
  lemma CacheIsCurrent(ops: seq<Op>, obj: LiveObject, changes: Changes, at: int, tellsEtag: bool)
    requires obj in Run(ops).held && OutcomeOf(Run(ops), obj, changes, at, tellsEtag).Updated?
    ensures var w := Run(ops);
            var after := UpdateStep(w, obj, changes, at, tellsEtag);
            (CurrentEtag(after.history, obj.url) == after.cache[obj.url].etag &&
             after.history[Latest(after.history, obj.url).value].props == after.cache[obj.url].raw)
            <==> (if changes == map[] then CurrentEtag(w.history, obj.url) == obj.etag else tellsEtag)
  {
    hide Run, EditProps, Genuine, OutcomeOf, UpdateStep;
    var w := Run(ops);
    RunKeepsInv(ops);
    if changes == map[] {
      EmptyUpdateCaches(w, obj, at, tellsEtag);
    } else {
      WriteCaches(w, obj, changes, at, tellsEtag);
    }
  }

  lemma EmptyUpdateCaches(w: World, obj: LiveObject, at: int, tellsEtag: bool)
    requires Genuine(w.history, obj) && OutcomeOf(w, obj, map[], at, tellsEtag).Updated?
    ensures UpdateStep(w, obj, map[], at, tellsEtag).history == w.history
    ensures UpdateStep(w, obj, map[], at, tellsEtag).cache[obj.url] == obj
    ensures CurrentEtag(w.history, obj.url) == obj.etag ==> w.history[Latest(w.history, obj.url).value].props == obj.raw
  {
  }

  lemma WriteCaches(w: World, obj: LiveObject, changes: Changes, at: int, tellsEtag: bool)
    requires changes != map[] && Genuine(w.history, obj) && OutcomeOf(w, obj, changes, at, tellsEtag).Updated?
    ensures var after := UpdateStep(w, obj, changes, at, tellsEtag);
            && CurrentEtag(after.history, obj.url) == Some(|w.history| + 1)
            && after.history[Latest(after.history, obj.url).value].props == after.cache[obj.url].raw
            && (after.cache[obj.url].etag == Some(|w.history| + 1) <==> tellsEtag)
  {
    hide EditProps;
    var h := UpdateStep(w, obj, changes, at, tellsEtag).history;
    assert Latest(h, obj.url) == Some(|w.history|);
  }

  lemma RunMore(ops: seq<Op>, op: Op)
    ensures Run(ops + [op]) == Step(Run(ops), op)
  {
    assert (ops + [op])[..|ops|] == ops;
  }

  /** In any reachable state: a version another client wrote, read by us and then updated, is followed by
      our edit of it, which is also what the cache then holds. */
  lemma ReadThenUpdate(ops: seq<Op>, kind: Kind, url: string, collection: string, props: Props, changes: Changes, at: int)
    requires collection != "" && collection + "/" <= url
    requires changes != map[] && changes.Keys <= (if kind == TaskObject then TASK_KEYS else EVENT_KEYS)
    ensures var n := |Run(ops).history| + 1;
            var obj := LiveObject(kind, url, collection, Some(n), Some(props));
            var edited := if kind == TaskObject then EditTask(props, changes, at).value else EditEvent(props, changes).value;
            var t := Run(ops + [ForeignPut(url, props), Read(kind, url, collection), Update(obj, changes, at, true)]);
            && t.history == Run(ops).history +
                 [Version(url, Some(props), None), Version(url, Some(edited), Some(Base(kind, n, changes, at)))]
            && url in t.cache && t.cache[url] == obj.(raw := Some(edited), etag := Some(n + 1))
  {
    hide Run, Step, EditTask, EditEvent;
    var obj := LiveObject(kind, url, collection, Some(|Run(ops).history| + 1), Some(props));
    var o1 := ops + [ForeignPut(url, props)];
    var o2 := o1 + [Read(kind, url, collection)];
    RunMore(ops, ForeignPut(url, props));
    RunMore(o1, Read(kind, url, collection));
    RunMore(o2, Update(obj, changes, at, true));
    assert ops + [ForeignPut(url, props), Read(kind, url, collection), Update(obj, changes, at, true)] ==
           o2 + [Update(obj, changes, at, true)];
    PutReadUpdate(Run(ops), kind, url, collection, props, changes, at);
  }

  lemma PutReadUpdate(w: World, kind: Kind, url: string, collection: string, props: Props, changes: Changes, at: int)
    requires collection != "" && collection + "/" <= url
    requires changes != map[] && changes.Keys <= (if kind == TaskObject then TASK_KEYS else EVENT_KEYS)
    ensures var n := |w.history| + 1;
            var obj := LiveObject(kind, url, collection, Some(n), Some(props));
            var edited := if kind == TaskObject then EditTask(props, changes, at).value else EditEvent(props, changes).value;
            var t := Step(Step(Step(w, ForeignPut(url, props)), Read(kind, url, collection)), Update(obj, changes, at, true));
            && t.history == w.history +
                 [Version(url, Some(props), None), Version(url, Some(edited), Some(Base(kind, n, changes, at)))]
            && url in t.cache && t.cache[url] == obj.(raw := Some(edited), etag := Some(n + 1))
  {
    hide EditTask, EditEvent, Latest, CurrentEtag;
    EditsSupported(kind, props, changes, at);
    var n, v := |w.history| + 1, Version(url, Some(props), None);
    var obj := LiveObject(kind, url, collection, Some(n), Some(props));
    Newest(w.history, v);
    var w1 := Step(w, ForeignPut(url, props));
    assert w1.history == w.history + [v];
    var w2 := Step(w1, Read(kind, url, collection));
    assert CurrentEtag(w1.history, url) == Some(n);
    assert w2 == w1.(held := w1.held + {obj});
    assert obj in w2.held;
  }

  /** If another client writes or deletes the resource after we read it, our update is a conflict and
      changes nothing. */
  lemma LostRace(ops: seq<Op>, obj: LiveObject, change: Option<Props>, changes: Changes, at: int, tellsEtag: bool)
    requires obj in Run(ops).held && obj.raw.Some? && obj.etag.Some? && changes != map[]
    ensures var foreign := if change.Some? then ForeignPut(obj.url, change.value) else ForeignDelete(obj.url);
            Run(ops + [foreign, Update(obj, changes, at, tellsEtag)]) == Run(ops + [foreign]) &&
            Run(ops + [foreign]).history == Run(ops).history + [Version(obj.url, change, None)]
  {
    hide EditTask, EditEvent;
    var foreign := if change.Some? then ForeignPut(obj.url, change.value) else ForeignDelete(obj.url);
    var o1 := ops + [foreign];
    RunMore(ops, foreign);
    RunMore(o1, Update(obj, changes, at, tellsEtag));
    RunKeepsInv(ops);
    assert ops + [foreign, Update(obj, changes, at, tellsEtag)] == o1 + [Update(obj, changes, at, tellsEtag)];
    assert Genuine(Run(ops).history, obj);
    hide Run;
    Newest(Run(ops).history, Version(obj.url, change, None));
  }

  lemma Newest(history: seq<Version>, v: Version)
    ensures Latest(history + [v], v.url) == Some(|history|)
    ensures CurrentEtag(history + [v], v.url) == if v.props.Some? then Some(|history| + 1) else None
  {
  }

  lemma EditsSupported(kind: Kind, props: Props, changes: Changes, at: int)
    requires changes.Keys <= (if kind == TaskObject then TASK_KEYS else EVENT_KEYS)
    ensures EditProps(kind, props, changes, at).Ok?
  {
  }
}
