/** Choosing the next agenda item: an explicit lexicographic policy over eligible items. */
module NextEngines {
  import opened Prelude
  import opened Orders
  import opened Times

  datatype Task = Task(id: string, summary: string, start: Option<When>, due: Option<When>, status: string,
                       completed: bool, priority: Option<int>, overdue: bool)

  datatype Event = Event(id: string, summary: string, start: Option<When>, end: Option<When>)

  datatype Item = TaskItem(task: Task) | EventItem(event: Event, shown: Option<When>) | OtherItem(what: string)

  datatype Kind = TaskKind | EventKind

  /** What a decision depends on besides the agenda. */
  datatype Context = Context(now: Now, current: Option<string>, skipped: set<string>, kind: Option<Kind>,
                             eventHorizon: nat, dueHorizon: nat)

  /** A rank tuple: policy class, time and priority keys, then the item's stable id. */
  datatype Rank = Rank(group: nat, keys: seq<int>, id: string)

  function KindOf(item: Item): Option<Kind> {
    match item
    case TaskItem(_) => Some(TaskKind)
    case EventItem(_, _) => Some(EventKind)
    case OtherItem(_) => None
  }

  function Uid(item: Item): Option<string> {
    var id := match item case TaskItem(t) => t.id case EventItem(e, _) => e.id case OtherItem(_) => "";
    if id == "" then None else Some(id)
  }

  function StableId(item: Item): string {
    if Uid(item).Some? then Uid(item).value
    else match item case TaskItem(t) => t.summary case EventItem(e, _) => e.summary case OtherItem(_) => ""
  }

  function TimeKey(v: Option<When>, now: Now): int {
    if v.Some? then Wall(v.value, now) else FAR_FUTURE
  }

  function PriorityKey(t: Task): int {
    if t.priority.Some? && 1 <= t.priority.value <= 9 then t.priority.value else 10
  }

  predicate Overdue(t: Task, now: Now) {
    t.overdue || (t.due.Some? && Elapsed(t.due.value, now))
  }

  predicate DueSoon(t: Task, c: Context) {
    t.due.Some? && !Overdue(t, c.now) &&
    match t.due.value
    case Day(d) => DateOf(c.now.wall) <= d <= DateOf(c.now.wall + c.dueHorizon)
    case v => c.now.wall <= Wall(v, c.now) <= c.now.wall + c.dueHorizon
  }

  predicate Available(t: Task, now: Now) {
    match t.start
    case None => true
    case Some(Day(d)) => d <= DateOf(now.wall)
    case Some(v) => Wall(v, now) <= now.wall
  }

  function EventStart(e: Event, shown: Option<When>): Option<When> {
    if e.start.Some? then e.start else shown
  }

  predicate Ongoing(e: Event, shown: Option<When>, now: Now) {
    var today := DateOf(now.wall);
    match (EventStart(e, shown), e.end)
    case (None, _) => false
    case (Some(Day(s)), None) => s == today
    case (Some(Day(s)), Some(Day(f))) => s <= today < f
    case (Some(s), Some(f)) => Wall(s, now) <= now.wall < Wall(f, now)
    case (Some(_), None) => false
  }

  predicate Past(e: Event, shown: Option<When>, now: Now) {
    var today := DateOf(now.wall);
    match (EventStart(e, shown), e.end)
    case (None, _) => false
    case (Some(Day(s)), None) => s < today
    case (Some(Day(_)), Some(Day(f))) => f <= today
    case (Some(_), Some(f)) => Wall(f, now) <= now.wall
    case (Some(s), None) => Wall(s, now) < now.wall
  }

  predicate Imminent(e: Event, shown: Option<When>, c: Context) {
    !Ongoing(e, shown, c.now) &&
    match EventStart(e, shown)
    case None => false
    case Some(s) => c.now.wall <= Wall(s, c.now) <= c.now.wall + c.eventHorizon
  }

  predicate Eligible(item: Item, now: Now) {
    match item
    case TaskItem(t) => !t.completed && t.status != "COMPLETED" && t.status != "CANCELLED"
    case EventItem(e, shown) => !Past(e, shown, now)
    case OtherItem(_) => false
  }

  predicate IsCurrent(item: Item, c: Context) {
    item.TaskItem? && c.current.Some? && Uid(item) == c.current
  }

  function RankOf(item: Item, c: Context): Rank {
    var id := StableId(item);
    match item
    case TaskItem(t) =>
      var priority, due, start := PriorityKey(t), TimeKey(t.due, c.now), TimeKey(t.start, c.now);
      if IsCurrent(item, c) then Rank(0, [priority, due], id)
      else if Overdue(t, c.now) then Rank(3, [due, priority], id)
      else if DueSoon(t, c) then Rank(4, [due, priority], id)
      else if Available(t, c.now) then Rank(5, [priority, due], id)
      else Rank(6, [start, priority, due], id)
    case EventItem(e, shown) =>
      var start := TimeKey(EventStart(e, shown), c.now);
      if Ongoing(e, shown, c.now) then Rank(1, [start], id)
      else if Imminent(e, shown, c) then Rank(2, [start], id)
      else Rank(7, [start], id)
    case OtherItem(_) => Rank(99, [], id)
  }

  predicate KeysLess(a: seq<int>, b: seq<int>) {
    if b == [] then false
    else if a == [] then true
    else a[0] < b[0] || (a[0] == b[0] && KeysLess(a[1..], b[1..]))
  }

  /** Tuple comparison. */
  predicate RankLess(a: Rank, b: Rank) {
    || a.group < b.group
    || (a.group == b.group && KeysLess(a.keys, b.keys))
    || (a.group == b.group && a.keys == b.keys && Less(a.id, b.id))
  }

  predicate Candidate(item: Item, c: Context) {
    && KindOf(item).Some?
    && (c.kind.Some? ==> KindOf(item) == c.kind)
    && (Uid(item).Some? ==> Uid(item).value !in c.skipped)
    && Eligible(item, c.now)
  }

  /** best is a candidate and no candidate ranks before it. */
  ghost predicate IsBest(items: seq<Item>, c: Context, best: Item) {
    && best in items && Candidate(best, c)
    && forall x :: x in items && Candidate(x, c) ==> !RankLess(RankOf(x, c), RankOf(best, c))
  }

  /** Filter, then take the least of what is left. */
  method Choose(items: seq<Item>, c: Context) returns (r: Option<Item>)
    ensures r.None? <==> forall x :: x in items ==> !Candidate(x, c)
    ensures r.Some? ==> IsBest(items, c, r.value)
  {
    hide RankOf, RankLess, Candidate;
    var candidates: seq<Item> := [];
    for i := 0 to |items|
      invariant forall x :: x in candidates <==> x in items[..i] && Candidate(x, c)
    {
      if Candidate(items[i], c) {
        candidates := candidates + [items[i]];
      }
    }
    assert items[..|items|] == items;
    if candidates == [] {
      return None;
    }
    var best := LeastRanked(candidates, c);
    r := Some(best);
  }

  /** The first element of the least rank. */
  method LeastRanked(candidates: seq<Item>, c: Context) returns (best: Item)
    requires candidates != []
    ensures exists k :: 0 <= k < |candidates| && candidates[k] == best && FirstLeast(candidates, c, k)
    ensures best in candidates
    ensures forall x :: x in candidates ==> !RankLess(RankOf(x, c), RankOf(best, c))
  {
    hide RankOf, RankLess;
    var k := 0;
    RankTotal(RankOf(candidates[0], c), RankOf(candidates[0], c));
    for i := 1 to |candidates|
      invariant 0 <= k < i && FirstLeast(candidates[..i], c, k)
    {
      ghost var prefix := candidates[..i];
      if RankLess(RankOf(candidates[i], c), RankOf(candidates[k], c)) {
        RankTotal(RankOf(candidates[i], c), RankOf(candidates[i], c));
        forall j | 0 <= j < i ensures RankLess(RankOf(candidates[i], c), RankOf(prefix[j], c)) {
          RankTotal(RankOf(candidates[k], c), RankOf(prefix[j], c));
          if RankLess(RankOf(candidates[k], c), RankOf(prefix[j], c)) {
            RankTransitive(RankOf(candidates[i], c), RankOf(candidates[k], c), RankOf(prefix[j], c));
          }
        }
        forall j | 0 <= j < i
          ensures !RankLess(RankOf(prefix[j], c), RankOf(candidates[i], c))
        {
          RankTotal(RankOf(prefix[j], c), RankOf(candidates[i], c));
        }
        k := i;
      }
      assert candidates[..i + 1] == prefix + [candidates[i]];
    }
    assert candidates[..|candidates|] == candidates;
    best := candidates[k];
  }

  /** No element ranks below the one at k, and every earlier one ranks above it. */
  ghost predicate FirstLeast(items: seq<Item>, c: Context, k: nat)
    requires k < |items|
  {
    && (forall j :: 0 <= j < |items| ==> !RankLess(RankOf(items[j], c), RankOf(items[k], c)))
    && (forall j :: 0 <= j < k ==> RankLess(RankOf(items[k], c), RankOf(items[j], c)))
  }

  // ---- the ranks are totally ordered ----

  lemma {:induction false} KeysTotal(a: seq<int>, b: seq<int>)
    ensures KeysLess(a, b) || a == b || KeysLess(b, a)
    ensures !(KeysLess(a, b) && KeysLess(b, a)) && (a == b ==> !KeysLess(a, b))
  {
    if a != [] && b != [] {
      KeysTotal(a[1..], b[1..]);
      assert a == [a[0]] + a[1..] && b == [b[0]] + b[1..];
    }
  }

  lemma {:induction false} KeysTransitive(a: seq<int>, b: seq<int>, c: seq<int>)
    requires KeysLess(a, b) && KeysLess(b, c)
    ensures KeysLess(a, c)
  {
    if a != [] && b != [] && c != [] && a[0] == b[0] == c[0] {
      KeysTransitive(a[1..], b[1..], c[1..]);
    }
  }

  lemma RankTotal(a: Rank, b: Rank)
    ensures RankLess(a, b) || a == b || RankLess(b, a)
    ensures !(RankLess(a, b) && RankLess(b, a)) && (a == b ==> !RankLess(a, b))
  {
    KeysTotal(a.keys, b.keys);
    LessTotal(a.id, b.id);
  }

  lemma RankTransitive(a: Rank, b: Rank, c: Rank)
    requires RankLess(a, b) && RankLess(b, c)
    ensures RankLess(a, c)
  {
    if a.group == b.group == c.group {
      if KeysLess(a.keys, b.keys) && KeysLess(b.keys, c.keys) { KeysTransitive(a.keys, b.keys, c.keys); }
      if a.keys == b.keys == c.keys {
        KeysTotal(a.keys, a.keys);
        LessTransitive(a.id, b.id, c.id);
      }
    }
  }

  // ---- what the choice means ----

  /** Within a kind, stable ids tell the items apart. */
  ghost predicate DistinctIds(items: seq<Item>) {
    forall x, y :: x in items && y in items && KindOf(x) == KindOf(y) && StableId(x) == StableId(y) ==> x == y
  }

  /** With distinct ids there is only one best item, so the choice does not depend on the order
      of the agenda. */
  lemma ChoiceIsUnique(items: seq<Item>, others: seq<Item>, c: Context, a: Item, b: Item)
    requires DistinctIds(items) && forall x :: x in items <==> x in others
    requires IsBest(items, c, a) && IsBest(others, c, b)
    ensures a == b
  {
    RankTotal(RankOf(a, c), RankOf(b, c));
    assert RankOf(a, c) == RankOf(b, c);
    SameRankSameKind(a, b, c);
  }

  lemma SameRankSameKind(a: Item, b: Item, c: Context)
    requires Candidate(a, c) && Candidate(b, c) && RankOf(a, c) == RankOf(b, c)
    ensures KindOf(a) == KindOf(b) && StableId(a) == StableId(b)
  {
  }

  /** An eligible current task wins over everything else. */
  lemma CurrentWins(items: seq<Item>, c: Context, current: Item, best: Item)
    requires DistinctIds(items) && current in items && Candidate(current, c) && IsCurrent(current, c)
    requires IsBest(items, c, best)
    ensures best == current
  {
  }

  /** The policy classes of events in terms of time alone. An eligible event that started is ongoing; one
      that starts within the horizon is imminent; any other is a later one. One that starts right now is
      ongoing if it has an end or lasts the day. */
  lemma EventClasses(e: Event, shown: Option<When>, c: Context)
    requires Eligible(EventItem(e, shown), c.now)
    ensures var group := RankOf(EventItem(e, shown), c).group;
            var start := if e.start.Some? then e.start else shown;
            && (start.None? ==> group == 7)
            && (start.Some? && Wall(start.value, c.now) < c.now.wall ==> group == 1)
            && (start.Some? && Wall(start.value, c.now) == c.now.wall ==>
                  group == if e.end.Some? || start.value.Day? then 1 else 2)
            && (start.Some? && c.now.wall < Wall(start.value, c.now) <= c.now.wall + c.eventHorizon ==> group == 2)
            && (start.Some? && c.now.wall + c.eventHorizon < Wall(start.value, c.now) ==> group == 7)
  {
  }

  /** An eligible task falls in exactly one class: current, else past its due time, else due
      within the horizon, else available now, else available later. */
  lemma TaskClasses(t: Task, c: Context)
    requires Eligible(TaskItem(t), c.now)
    ensures var group := RankOf(TaskItem(t), c).group;
            var late := t.overdue || (t.due.Some? && Elapsed(t.due.value, c.now));
            var near := t.due.Some? && (match t.due.value
                                        case Day(d) => d <= DateOf(c.now.wall + c.dueHorizon)
                                        case v => Wall(v, c.now) <= c.now.wall + c.dueHorizon);
            && (group == 0 <==> IsCurrent(TaskItem(t), c))
            && (group == 3 <==> !IsCurrent(TaskItem(t), c) && late)
            && (group == 4 <==> !IsCurrent(TaskItem(t), c) && !late && near)
            && (group == 5 <==> !IsCurrent(TaskItem(t), c) && !late && !near && Available(t, c.now))
            && (group == 6 <==> !IsCurrent(TaskItem(t), c) && !late && !near && !Available(t, c.now))
  {
  }

  function Due(item: Item, now: Now): int
    requires item.TaskItem?
  {
    TimeKey(item.task.due, now)
  }

  function Begin(item: Item, now: Now): int {
    match item
    case TaskItem(t) => TimeKey(t.start, now)
    case EventItem(e, shown) => TimeKey(EventStart(e, shown), now)
    case OtherItem(_) => FAR_FUTURE
  }

  function Priority(item: Item): int
    requires item.TaskItem?
  {
    PriorityKey(item.task)
  }

  /** What the choice promises against any other candidate. No candidate is in a better class. In
      its own class: a late or due-soon task has the earliest deadline, then the best priority; an
      available one the best priority, then the earliest deadline; a task for later the earliest
      start, then priority, then deadline; an event the earliest start. */
  lemma BestOfClass(items: seq<Item>, c: Context, best: Item, x: Item)
    requires IsBest(items, c, best) && x in items && Candidate(x, c)
    ensures var g, now := RankOf(best, c).group, c.now;
            && g <= RankOf(x, c).group
            && (g == RankOf(x, c).group && (g == 3 || g == 4) ==>
                  best.TaskItem? && x.TaskItem? &&
                  (Due(best, now) < Due(x, now) || (Due(best, now) == Due(x, now) && Priority(best) <= Priority(x))))
            && (g == RankOf(x, c).group && (g == 0 || g == 5) ==>
                  best.TaskItem? && x.TaskItem? &&
                  (Priority(best) < Priority(x) || (Priority(best) == Priority(x) && Due(best, now) <= Due(x, now))))
            && (g == RankOf(x, c).group == 6 ==>
                  best.TaskItem? && x.TaskItem? && Begin(best, now) <= Begin(x, now) &&
                  (Begin(best, now) == Begin(x, now) ==>
                     Priority(best) < Priority(x) || (Priority(best) == Priority(x) && Due(best, now) <= Due(x, now))))
            && (g == RankOf(x, c).group && (g == 1 || g == 2 || g == 7) ==>
                  best.EventItem? && x.EventItem? && Begin(best, now) <= Begin(x, now))
  {
    hide RankOf, Eligible, Begin, Due, Priority;
    RankShape(best, c);
    RankShape(x, c);
    if RankOf(x, c).group == RankOf(best, c).group {
      KeysNotLess(RankOf(x, c).keys, RankOf(best, c).keys);
    }
  }

  lemma RankShape(item: Item, c: Context)
    requires KindOf(item).Some?
    ensures var r, now := RankOf(item, c), c.now;
            && r.group <= 7
            && (r.group == 1 || r.group == 2 || r.group == 7 <==> item.EventItem?)
            && (item.EventItem? ==> r.keys == [Begin(item, now)])
            && (r.group == 0 || r.group == 5 ==> r.keys == [Priority(item), Due(item, now)])
            && (r.group == 3 || r.group == 4 ==> r.keys == [Due(item, now), Priority(item)])
            && (r.group == 6 ==> r.keys == [Begin(item, now), Priority(item), Due(item, now)])
  {
  }

  /** Lexicographic comparison, key by key. */
  lemma KeysNotLess(a: seq<int>, b: seq<int>)
    requires |a| == |b| <= 3
    ensures !KeysLess(a, b) ==>
              && (|a| >= 1 ==> b[0] <= a[0])
              && (|a| >= 2 && a[0] == b[0] ==> b[1] <= a[1])
              && (|a| >= 3 && a[0] == b[0] && a[1] == b[1] ==> b[2] <= a[2])
  {
  }

  /** Exactly which items may be chosen. An event is over when its end has come, or, without an end,
      when the day or moment it starts has passed. */
  lemma CandidateLaw(item: Item, c: Context)
    ensures item.TaskItem? ==>
              (Candidate(item, c) <==>
                 && !item.task.completed && item.task.status != "COMPLETED" && item.task.status != "CANCELLED"
                 && (item.task.id == "" || item.task.id !in c.skipped)
                 && (c.kind == None || c.kind == Some(TaskKind)))
    ensures item.EventItem? ==>
              (Candidate(item, c) <==>
                 && !(var e, start := item.event, if item.event.start.Some? then item.event.start else item.shown;
                      start.Some? && if e.end.Some? then Wall(e.end.value, c.now) <= c.now.wall
                                     else if start.value.Day? then start.value.day < DateOf(c.now.wall)
                                     else Wall(start.value, c.now) < c.now.wall)
                 && (item.event.id == "" || item.event.id !in c.skipped)
                 && (c.kind == None || c.kind == Some(EventKind)))
    ensures item.OtherItem? ==> !Candidate(item, c)
  {
  }

  /** Within a class the earlier time on `now`'s clock ranks first: the deadline for late and due-soon tasks, the
      start for tasks of later and for events. A task that is late only by its flag ranks behind the dated ones, and an
      event without start behind those that have one. */
  lemma EarlierRanksFirst(a: Item, b: Item, c: Context)
    requires RankOf(a, c).group == RankOf(b, c).group
    ensures var g, now := RankOf(a, c).group, c.now;
            && (g == 3 || g == 4 ==>
                  a.TaskItem? && b.TaskItem? &&
                  (a.task.due.Some? && b.task.due.Some? && Wall(a.task.due.value, now) < Wall(b.task.due.value, now) ==>
                     RankLess(RankOf(a, c), RankOf(b, c))) &&
                  (a.task.due.Some? && Wall(a.task.due.value, now) < FAR_FUTURE && b.task.due == None ==>
                     RankLess(RankOf(a, c), RankOf(b, c))))
            && (g == 6 ==>
                  a.TaskItem? && b.TaskItem? && a.task.start.Some? && b.task.start.Some? &&
                  (Wall(a.task.start.value, now) < Wall(b.task.start.value, now) ==> RankLess(RankOf(a, c), RankOf(b, c))))
            && (g == 1 || g == 2 || g == 7 ==>
                  a.EventItem? && b.EventItem? &&
                  var s := if a.event.start.Some? then a.event.start else a.shown;
                  var t := if b.event.start.Some? then b.event.start else b.shown;
                  (s.Some? && t.Some? && Wall(s.value, now) < Wall(t.value, now) ==> RankLess(RankOf(a, c), RankOf(b, c))) &&
                  (s.Some? && t == None && Wall(s.value, now) < FAR_FUTURE ==> RankLess(RankOf(a, c), RankOf(b, c))))
  {
  }

  /** A task is ordinary work when it is not current, not overdue, not due soon, and has begun or has no
      start. Between two such tasks a priority from 1 to 9 beats any larger one, and beats none, 0 and
      anything else. */
  lemma PriorityDecides(a: Task, b: Task, c: Context)
    requires c.current == None && a.due == None && b.due == None && !a.overdue && !b.overdue
    requires a.start == None || (if a.start.value.Day? then a.start.value.day <= DateOf(c.now.wall)
                               else Wall(a.start.value, c.now) <= c.now.wall)
    requires b.start == None || (if b.start.value.Day? then b.start.value.day <= DateOf(c.now.wall)
                               else Wall(b.start.value, c.now) <= c.now.wall)
    requires a.priority.Some? && 1 <= a.priority.value <= 9
    requires b.priority == None || b.priority.value <= 0 || b.priority.value > a.priority.value
    ensures RankLess(RankOf(TaskItem(a), c), RankOf(TaskItem(b), c))
  {
  }

  /** And a task that has begun, or has no start, comes before one that begins later. */
  lemma BegunFirst(a: Task, b: Task, c: Context)
    requires c.current == None && a.due == None && b.due == None && !a.overdue && !b.overdue
    requires a.start == None || a.start == Some(Day(DateOf(c.now.wall))) ||
             (a.start.value.Stamp? && Wall(a.start.value, c.now) <= c.now.wall)
    requires b.start.Some? && b.start.value.Stamp? && c.now.wall < Wall(b.start.value, c.now)
    ensures RankLess(RankOf(TaskItem(a), c), RankOf(TaskItem(b), c))
  {
  }
}
