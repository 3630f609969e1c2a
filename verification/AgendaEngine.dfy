/** Building the agenda: which tasks and events a range of days shows, and in which order. */
module AgendaEngines {
  import opened Prelude
  import opened Times
  import opened NextEngines
  import TodoMapping

  /** A value of the agenda with the time it is listed under. */
  datatype Entry = Entry(item: Item, when: Option<When>)

  /** The arguments of one `build`. `current` is what the user state holds for the current task, and
      zone is the host's offset, used only when `now` is naive. */
  datatype Query = Query(tasks: seq<Task>, events: seq<Event>, days: int, now: Now, current: Option<string>,
                         zone: int)

  const CURRENT := 0
  const OVERDUE := 1
  const SCHEDULED := 2

  datatype Failure = ValidationError

  // ---- text ----

  predicate IsSpace(c: char) {
    || '\t' <= c <= '\r' || '\U{1c}' <= c <= ' ' || c == '\U{85}' || c == '\U{a0}' || c == '\U{1680}'
    || '\U{2000}' <= c <= '\U{200a}' || c == '\U{2028}' || c == '\U{2029}' || c == '\U{202f}'
    || c == '\U{205f}' || c == '\U{3000}'
  }

  function Strip(s: string): string {
    if s == "" then ""
    else if IsSpace(s[0]) then Strip(s[1..])
    else if IsSpace(s[|s| - 1]) then Strip(s[..|s| - 1])
    else s
  }

  function CurrentUid(value: Option<string>): Option<string> {
    if value.None? || Strip(value.value) == "" then None else Some(Strip(value.value))
  }

  predicate Inactive(t: Task) {
    var status := TodoMapping.Upper(Strip(t.status));
    t.completed || status == "COMPLETED" || status == "CANCELLED"
  }

  // ---- time ----

  /** A date-time as `now`'s wall clock shows it; against a naive `now` an aware value is first
      converted to the host's zone. */
  function Local(wall: int, offset: Option<int>, q: Query): int {
    if offset.None? then wall
    else wall - offset.value + (if q.now.offset.Some? then q.now.offset.value else q.zone)
  }

  function DayOf(v: When, q: Query): int {
    match v
    case Day(d) => d
    case Stamp(wall, offset) => DateOf(Local(wall, offset, q))
  }

  predicate IsBefore(v: When, q: Query) {
    match v
    case Day(d) => d < DateOf(q.now.wall)
    case Stamp(wall, offset) => Local(wall, offset, q) < q.now.wall
  }

  function StartDay(q: Query): int { DateOf(q.now.wall) }

  function EndDay(q: Query): int { StartDay(q) + q.days }

  predicate InRange(v: When, q: Query) {
    StartDay(q) <= DayOf(v, q) < EndDay(q)
  }

  predicate Overlaps(e: Event, q: Query) {
    && e.start.Some?
    && if e.end.None? then InRange(e.start.value, q)
       else DayOf(e.start.value, q) < EndDay(q) && DayOf(e.end.value, q) >= StartDay(q)
  }

  /** Ordinal of the day, then all-day values before timed ones, then the time of day. */
  function WhenKey(v: Option<When>, q: Query): seq<int> {
    match v
    case None => [1, 0, 0, 0]
    case Some(Day(d)) => [d + 1, 0, 0, 0]
    case Some(Stamp(wall, offset)) =>
      var local := Local(wall, offset, q);
      [DateOf(local) + 1, 1, local % DAY / SECOND, local % SECOND]
  }

  const SECOND := 1_000_000

  // ---- what belongs in the agenda ----

  function TaskWhen(t: Task): Option<When> {
    if t.due.Some? then t.due else t.start
  }

  predicate IsCurrentTask(t: Task, q: Query) {
    CurrentUid(q.current).Some? && t.id == CurrentUid(q.current).value
  }

  predicate IsOverdue(t: Task, q: Query) {
    t.due.Some? && IsBefore(t.due.value, q)
  }

  /** An undated task shows only while it is the current one. */
  predicate Qualifying(task: Task, q: Query) {
    !Inactive(task) &&
    (IsCurrentTask(task, q) || IsOverdue(task, q) || (TaskWhen(task).Some? && InRange(TaskWhen(task).value, q)))
  }

  function Count(q: Query): nat {
    |q.tasks| + |q.events|
  }

  /** Positions number the tasks first, then the events. */
  predicate Qualifies(q: Query, p: nat)
    requires p < Count(q)
  {
    if p < |q.tasks| then Qualifying(q.tasks[p], q) else Overlaps(q.events[p - |q.tasks|], q)
  }

  function Group(q: Query, p: nat): int
    requires p < Count(q)
  {
    if p >= |q.tasks| then SCHEDULED
    else if IsCurrentTask(q.tasks[p], q) then CURRENT
    else if IsOverdue(q.tasks[p], q) then OVERDUE
    else SCHEDULED
  }

  function EntryAt(q: Query, p: nat): Entry
    requires p < Count(q)
  {
    if p < |q.tasks| then Entry(TaskItem(q.tasks[p]), TaskWhen(q.tasks[p]))
    else var e := q.events[p - |q.tasks|]; Entry(EventItem(e, e.start), e.start)
  }

  /** What decides between two positions before their order of arrival does. */
  function SortKey(q: Query, p: nat): seq<int>
    requires p < Count(q)
  {
    [Group(q, p)] + WhenKey(EntryAt(q, p).when, q)
  }

  predicate Before(q: Query, p: nat, r: nat)
    requires p < Count(q) && r < Count(q)
  {
    KeysLess(SortKey(q, p), SortKey(q, r)) || (SortKey(q, p) == SortKey(q, r) && p < r)
  }

  /** Every qualifying position once, nothing else, in stable order of group and time. */
  ghost predicate IsOrder(q: Query, order: seq<nat>) {
    && (forall i :: 0 <= i < |order| ==> order[i] < Count(q) && Qualifies(q, order[i]))
    && (forall p: nat :: p < Count(q) && Qualifies(q, p) ==> p in order)
    && (forall i, j :: 0 <= i < j < |order| ==> Before(q, order[i], order[j]))
  }

  ghost predicate IsAgenda(q: Query, agenda: seq<Entry>, order: seq<nat>) {
    && IsOrder(q, order) && |agenda| == |order|
    && forall i :: 0 <= i < |agenda| ==> agenda[i] == EntryAt(q, order[i])
  }

  // ---- the construction ----

  datatype Row = Row(group: int, key: seq<int>, sequence: nat, entry: Entry)

  function RowKey(row: Row): seq<int> {
    [row.group] + row.key + [row.sequence]
  }

  /** The rows of the qualifying positions below upto, numbered as they were found. */
  ghost predicate Ranked(q: Query, upto: nat, rows: seq<Row>, positions: seq<nat>) {
    && upto <= Count(q) && |rows| == |positions|
    && (forall i, j :: 0 <= i < j < |positions| ==> positions[i] < positions[j])
    && (forall i :: 0 <= i < |positions| ==> positions[i] < upto && Qualifies(q, positions[i]))
    && (forall p: nat :: p < upto && Qualifies(q, p) ==> p in positions)
    && (forall i :: 0 <= i < |rows| ==> rows[i] == RowAt(q, positions[i], i))
  }

  function RowAt(q: Query, p: nat, sequence: nat): Row
    requires p < Count(q)
  {
    Row(Group(q, p), WhenKey(EntryAt(q, p).when, q), sequence, EntryAt(q, p))
  }

  method Build(q: Query) returns (r: Result<seq<Entry>, Failure>)
    ensures r.Err? <==> q.days < 1
    ensures r.Ok? ==> exists order :: IsAgenda(q, r.value, order)
  {
    hide WhenKey, Inactive, IsOrder, Ranked, Group, Qualifies, Qualifying, Overlaps, RowAt, EntryAt, StrictlySorted;
    if q.days < 1 {
      return Err(ValidationError);
    }
    var ranked: seq<Row> := [];
    ghost var positions: seq<nat> := [];
    var sequence := 0;
    NothingRanked(q);
    for i := 0 to |q.tasks|
      invariant Ranked(q, i, ranked, positions) && sequence == |ranked|
    {
      var task := q.tasks[i];
      ghost var before, were := ranked, positions;
      TaskFacts(q, i, sequence);
      if Qualifying(task, q) {
        var group := if IsCurrentTask(task, q) then CURRENT else if IsOverdue(task, q) then OVERDUE else SCHEDULED;
        var when := TaskWhen(task);
        ranked := ranked + [Row(group, WhenKey(when, q), sequence, Entry(TaskItem(task), when))];
        positions := positions + [i];
        sequence := sequence + 1;
        RankedAppend(q, i, before, were);
      } else {
        RankedSkip(q, i, before, were);
      }
    }
    for i := 0 to |q.events|
      invariant Ranked(q, |q.tasks| + i, ranked, positions) && sequence == |ranked|
    {
      var event := q.events[i];
      ghost var before, were := ranked, positions;
      EventFacts(q, i, sequence);
      if event.start.Some? && Overlaps(event, q) {
        ranked := ranked
          + [Row(SCHEDULED, WhenKey(event.start, q), sequence, Entry(EventItem(event, event.start), event.start))];
        positions := positions + [|q.tasks| + i];
        sequence := sequence + 1;
        RankedAppend(q, |q.tasks| + i, before, were);
      } else {
        RankedSkip(q, |q.tasks| + i, before, were);
      }
    }
    DistinctSequences(q, ranked, positions);
    var sorted := SortRows(ranked);
    ghost var order := Sorted(q, ranked, positions, sorted);
    r := Ok(seq(|sorted|, i requires 0 <= i < |sorted| => sorted[i].entry));
    assert IsAgenda(q, r.value, order);
  }

  lemma NothingRanked(q: Query)
    ensures Ranked(q, 0, [], [])
  {
  }

  lemma DistinctSequences(q: Query, rows: seq<Row>, positions: seq<nat>)
    requires Ranked(q, Count(q), rows, positions)
    ensures forall i, j :: 0 <= i < j < |rows| ==> rows[i].sequence != rows[j].sequence
  {
  }

  lemma TaskFacts(q: Query, i: nat, sequence: nat)
    requires i < |q.tasks|
    ensures Qualifies(q, i) <==> Qualifying(q.tasks[i], q)
    ensures RowAt(q, i, sequence) == Row(Group(q, i), WhenKey(TaskWhen(q.tasks[i]), q), sequence,
                                         Entry(TaskItem(q.tasks[i]), TaskWhen(q.tasks[i])))
    ensures Group(q, i) == if IsCurrentTask(q.tasks[i], q) then CURRENT
                           else if IsOverdue(q.tasks[i], q) then OVERDUE else SCHEDULED
  {
  }

  lemma EventFacts(q: Query, i: nat, sequence: nat)
    requires i < |q.events|
    ensures var e, p := q.events[i], |q.tasks| + i;
            && (Qualifies(q, p) <==> e.start.Some? && Overlaps(e, q))
            && RowAt(q, p, sequence) == Row(SCHEDULED, WhenKey(e.start, q), sequence, Entry(EventItem(e, e.start), e.start))
  {
  }

  lemma RankedAppend(q: Query, p: nat, rows: seq<Row>, positions: seq<nat>)
    requires Ranked(q, p, rows, positions) && p < Count(q) && Qualifies(q, p)
    ensures Ranked(q, p + 1, rows + [RowAt(q, p, |rows|)], positions + [p])
  {
    hide Qualifies, RowAt;
  }

  lemma RankedSkip(q: Query, p: nat, rows: seq<Row>, positions: seq<nat>)
    requires Ranked(q, p, rows, positions) && p < Count(q) && !Qualifies(q, p)
    ensures Ranked(q, p + 1, rows, positions)
  {
  }

  /** Sorting by the whole key; no two rows share one, since sequence numbers differ. */
  method SortRows(rows: seq<Row>) returns (r: seq<Row>)
    requires forall i, j :: 0 <= i < j < |rows| ==> rows[i].sequence != rows[j].sequence
    ensures StrictlySorted(r) && forall x :: x in r <==> x in rows
  {
    r := [];
    for i := 0 to |rows|
      invariant StrictlySorted(r) && forall x :: x in r <==> x in rows[..i]
    {
      forall x | x in r ensures RowKey(x) != RowKey(rows[i]) {
        assert RowKey(x)[|RowKey(x)| - 1] == x.sequence && RowKey(rows[i])[|RowKey(rows[i])| - 1] == rows[i].sequence;
      }
      r := Insert(r, rows[i]);
      assert rows[..i + 1] == rows[..i] + [rows[i]];
    }
    assert rows[..|rows|] == rows;
  }

  ghost predicate StrictlySorted(rows: seq<Row>) {
    forall i, j :: 0 <= i < j < |rows| ==> KeysLess(RowKey(rows[i]), RowKey(rows[j]))
  }

  method Insert(rows: seq<Row>, row: Row) returns (r: seq<Row>)
    requires StrictlySorted(rows) && forall x :: x in rows ==> RowKey(x) != RowKey(row)
    ensures StrictlySorted(r) && forall x :: x in r <==> x == row || x in rows
  {
    hide KeysLess, RowKey, StrictlySorted;
    var k := |rows|;
    while k > 0 && KeysLess(RowKey(row), RowKey(rows[k - 1]))
      invariant 0 <= k <= |rows|
      invariant forall j :: k <= j < |rows| ==> KeysLess(RowKey(row), RowKey(rows[j]))
    {
      k := k - 1;
    }
    forall j | 0 <= j < k ensures KeysLess(RowKey(rows[j]), RowKey(row)) {
      KeysTotal(RowKey(rows[k - 1]), RowKey(row));
      assert rows[k - 1] in rows;
      if j < k - 1 {
        SortedAt(rows, j, k - 1);
        KeysTransitive(RowKey(rows[j]), RowKey(rows[k - 1]), RowKey(row));
      }
    }
    r := rows[..k] + [row] + rows[k..];
    Inserted(rows, k, row);
  }

  lemma SortedAt(rows: seq<Row>, i: nat, j: nat)
    requires StrictlySorted(rows) && i < j < |rows|
    ensures KeysLess(RowKey(rows[i]), RowKey(rows[j]))
  {
  }

  lemma Inserted(rows: seq<Row>, k: nat, row: Row)
    requires k <= |rows| && StrictlySorted(rows)
    requires forall j :: 0 <= j < k ==> KeysLess(RowKey(rows[j]), RowKey(row))
    requires forall j :: k <= j < |rows| ==> KeysLess(RowKey(row), RowKey(rows[j]))
    ensures StrictlySorted(rows[..k] + [row] + rows[k..])
    ensures forall x :: x in rows[..k] + [row] + rows[k..] <==> x == row || x in rows
  {
  }

  /** Sorting rows by their key is ordering positions by group, time and arrival. */
  lemma Sorted(q: Query, rows: seq<Row>, positions: seq<nat>, sorted: seq<Row>) returns (order: seq<nat>)
    requires Ranked(q, Count(q), rows, positions)
    requires StrictlySorted(sorted) && forall x :: x in sorted <==> x in rows
    ensures IsOrder(q, order) && |order| == |sorted|
    ensures forall i :: 0 <= i < |sorted| ==> sorted[i].entry == EntryAt(q, order[i])
  {
    hide KeysLess, Qualifies, Group, EntryAt, WhenKey, RowKey, Before, RowAt;
    forall i | 0 <= i < |sorted|
      ensures sorted[i].sequence < |rows| && sorted[i] == rows[sorted[i].sequence]
    {
      assert sorted[i] in rows;
      var k :| 0 <= k < |rows| && rows[k] == sorted[i];
      RowAtFields(q, positions[k], k);
    }
    order := seq(|sorted|, i requires 0 <= i < |sorted| => positions[sorted[i].sequence]);
    forall i | 0 <= i < |sorted| ensures sorted[i].entry == EntryAt(q, order[i]) {
      RowAtFields(q, order[i], sorted[i].sequence);
    }
    forall i, j | 0 <= i < j < |order| ensures Before(q, order[i], order[j]) {
      RowsCompare(q, order[i], sorted[i].sequence, order[j], sorted[j].sequence);
    }
    forall p: nat | p < Count(q) && Qualifies(q, p) ensures p in order {
      var k :| 0 <= k < |positions| && positions[k] == p;
      RowAtFields(q, p, k);
      assert rows[k] in sorted;
      var i :| 0 <= i < |sorted| && sorted[i] == rows[k];
      assert order[i] == p;
    }
  }

  lemma RowAtFields(q: Query, p: nat, sequence: nat)
    requires p < Count(q)
    ensures RowAt(q, p, sequence).sequence == sequence && RowAt(q, p, sequence).entry == EntryAt(q, p)
  {
  }

  lemma RowsCompare(q: Query, p: nat, s: nat, r: nat, t: nat)
    requires p < Count(q) && r < Count(q) && KeysLess(RowKey(RowAt(q, p, s)), RowKey(RowAt(q, r, t)))
    requires s < t ==> p < r
    ensures Before(q, p, r)
  {
    hide Group, EntryAt;
    KeysAppend(SortKey(q, p), s, SortKey(q, r), t);
    assert RowKey(RowAt(q, p, s)) == SortKey(q, p) + [s] && RowKey(RowAt(q, r, t)) == SortKey(q, r) + [t];
  }

  lemma {:induction false} KeysAppend(a: seq<int>, s: int, b: seq<int>, t: int)
    requires |a| == |b|
    ensures KeysLess(a + [s], b + [t]) <==> KeysLess(a, b) || (a == b && s < t)
  {
    if a != [] {
      KeysAppend(a[1..], s, b[1..], t);
      assert (a + [s])[1..] == a[1..] + [s] && (b + [t])[1..] == b[1..] + [t];
      assert a == [a[0]] + a[1..] && b == [b[0]] + b[1..];
    } else {
      assert a + [s] == [s] && b + [t] == [t];
    }
  }

  // ---- what the agenda guarantees ----

  /** The order, and so the agenda, is determined by the query. */
  lemma {:induction false} OrderIsUnique(q: Query, a: seq<nat>, b: seq<nat>)
    requires Chain(q, a) && Chain(q, b) && forall p :: p in a <==> p in b
    ensures a == b
  {
    hide Before;
    assert |a| > 0 ==> a[0] in a;
    assert |b| > 0 ==> b[0] in b;
    if a != [] {
      SameFirst(q, a, b);
      forall p ensures p in a[1..] <==> p in b[1..] {
        BeforeIrreflexive(q, a[0]);
        assert p in a <==> p == a[0] || p in a[1..];
        assert p in b <==> p == b[0] || p in b[1..];
      }
      OrderIsUnique(q, a[1..], b[1..]);
      assert a == [a[0]] + a[1..] && b == [b[0]] + b[1..];
    }
  }

  ghost predicate Chain(q: Query, order: seq<nat>) {
    && (forall i :: 0 <= i < |order| ==> order[i] < Count(q))
    && forall i, j :: 0 <= i < j < |order| ==> Before(q, order[i], order[j])
  }

  lemma SameFirst(q: Query, a: seq<nat>, b: seq<nat>)
    requires Chain(q, a) && Chain(q, b) && a != [] && b != [] && forall p :: p in a <==> p in b
    ensures a[0] == b[0]
  {
    hide Before;
    assert a[0] in a && b[0] in b;
    var i :| 0 <= i < |b| && b[i] == a[0];
    var j :| 0 <= j < |a| && a[j] == b[0];
    if i > 0 && j > 0 { BeforeAsymmetric(q, a[0], b[0]); }
  }

  lemma BeforeIrreflexive(q: Query, p: nat)
    requires p < Count(q)
    ensures !Before(q, p, p)
  {
    KeysTotal(SortKey(q, p), SortKey(q, p));
  }

  lemma BeforeAsymmetric(q: Query, p: nat, r: nat)
    requires p < Count(q) && r < Count(q)
    ensures !(Before(q, p, r) && Before(q, r, p))
  {
    KeysTotal(SortKey(q, p), SortKey(q, r));
  }

  /** Two agendas of one query are the same list: each qualifying value once, in the same order. */
  lemma AgendaIsUnique(q: Query, x: seq<Entry>, ox: seq<nat>, y: seq<Entry>, oy: seq<nat>)
    requires IsAgenda(q, x, ox) && IsAgenda(q, y, oy)
    ensures x == y && ox == oy
  {
    hide Before, Qualifies, EntryAt;
    OrderIsUnique(q, ox, oy);
  }

  /** Current, overdue and scheduled entries form three consecutive blocks. */
  lemma GroupsAreContiguous(q: Query, agenda: seq<Entry>, order: seq<nat>, i: nat, j: nat)
    requires IsAgenda(q, agenda, order) && i < j < |agenda|
    ensures Group(q, order[i]) <= Group(q, order[j])
  {
    hide Group, WhenKey, EntryAt, Qualifies;
    assert Before(q, order[i], order[j]);
    assert SortKey(q, order[i])[0] == Group(q, order[i]) && SortKey(q, order[j])[0] == Group(q, order[j]);
  }

  /** Within a block the listed times ascend: a date stands at the head of its day, and values of
      the same time keep the order they arrived in. An undated entry comes first. */
  lemma TimesAscend(q: Query, agenda: seq<Entry>, order: seq<nat>, i: nat, j: nat)
    requires IsAgenda(q, agenda, order) && i < j < |agenda| && Group(q, order[i]) == Group(q, order[j])
    requires agenda[i].when.Some? && agenda[j].when.Some?
    ensures Moment(agenda[i].when.value, q) <= Moment(agenda[j].when.value, q)
    ensures Moment(agenda[i].when.value, q) == Moment(agenda[j].when.value, q) ==>
              agenda[j].when.value.Day? ==> agenda[i].when.value.Day?
    ensures WhenKey(agenda[i].when, q) == WhenKey(agenda[j].when, q) ==> order[i] < order[j]
  {
    hide Group, Qualifies, WhenKey;
    assert Before(q, order[i], order[j]);
    var a, b := WhenKey(agenda[i].when, q), WhenKey(agenda[j].when, q);
    assert SortKey(q, order[i])[1..] == a && SortKey(q, order[j])[1..] == b;
    assert KeysLess(a, b) || a == b;
    KeyOrders(agenda[i].when.value, agenda[j].when.value, q);
    KeyOrders(agenda[j].when.value, agenda[i].when.value, q);
    KeysTotal(a, b);
  }

  /** A listed time as a point on `now`'s wall clock. */
  function Moment(v: When, q: Query): int {
    match v
    case Day(d) => d * DAY
    case Stamp(wall, offset) => Local(wall, offset, q)
  }

  /** Comparing keys compares points in time, with a date just before the midnight it starts at. */
  lemma KeyOrders(v: When, w: When, q: Query)
    ensures KeysLess(WhenKey(Some(v), q), WhenKey(Some(w), q)) <==>
              Moment(v, q) < Moment(w, q) || (Moment(v, q) == Moment(w, q) && v.Day? && w.Stamp?)
    ensures WhenKey(Some(v), q) == WhenKey(Some(w), q) <==> Moment(v, q) == Moment(w, q) && v.Day? == w.Day?
  {
    hide Local, KeysLess, DateOf;
    FourKeys(WhenKey(Some(v), q), WhenKey(Some(w), q));
    var dv, sv, mv := SplitTime(Moment(v, q));
    var dw, sw, mw := SplitTime(Moment(w, q));
    if v.Day? { DateOfDay(v.day, Moment(w, q)); }
    if w.Day? { DateOfDay(w.day, Moment(v, q)); }
    CompareSplit(dv, sv, mv, dw, sw, mw);
  }

  /** An undated entry comes before everything from the first representable day on. */
  lemma UndatedFirst(v: When, q: Query)
    requires Moment(v, q) >= 0
    ensures KeysLess(WhenKey(None, q), WhenKey(Some(v), q)) || WhenKey(Some(v), q) == WhenKey(None, q)
  {
    hide Local;
    FourKeys(WhenKey(None, q), WhenKey(Some(v), q));
    var day, seconds, micro := SplitTime(Moment(v, q));
  }

  lemma FourKeys(a: seq<int>, b: seq<int>)
    requires |a| == |b| == 4
    ensures KeysLess(a, b) <==>
              || a[0] < b[0]
              || (a[0] == b[0] && (a[1] < b[1] || (a[1] == b[1] && (a[2] < b[2] || (a[2] == b[2] && a[3] < b[3])))))
    ensures a == b <==> a[0] == b[0] && a[1] == b[1] && a[2] == b[2] && a[3] == b[3]
  {
    assert a[1..][1..] == a[2..] && b[1..][1..] == b[2..];
    assert a[2..][1..] == a[3..] && b[2..][1..] == b[3..];
    assert KeysLess(a[3..], b[3..]) <==> a[3] < b[3];
    assert KeysLess(a[2..], b[2..]) <==> a[2] < b[2] || (a[2] == b[2] && a[3] < b[3]);
    assert KeysLess(a[1..], b[1..]) <==> a[1] < b[1] || (a[1] == b[1] && KeysLess(a[2..], b[2..]));
  }

  lemma SplitTime(t: int) returns (day: int, seconds: int, micro: int)
    ensures day == DateOf(t) && seconds == t % DAY / SECOND && micro == t % SECOND
    ensures t == day * DAY + seconds * SECOND + micro
    ensures 0 <= seconds < 24 * 60 * 60 && 0 <= micro < SECOND
  {
    day, seconds, micro := DateOf(t), t % DAY / SECOND, t % SECOND;
    assert t % DAY % SECOND == t % SECOND;
  }

  lemma CompareSplit(d: int, s: int, m: int, e: int, t: int, n: int)
    requires 0 <= s < 24 * 60 * 60 && 0 <= m < SECOND && 0 <= t < 24 * 60 * 60 && 0 <= n < SECOND
    ensures d * DAY + s * SECOND + m < e * DAY + t * SECOND + n <==>
              d < e || (d == e && (s < t || (s == t && m < n)))
  {
  }

  /** What the list shows, value by value. An active task that is current, overdue, or dated inside the
      requested days is listed under its due time or else its start; an undated one only while it is
      current, an inactive one never; and nothing but the current task comes before it. */
  lemma TasksListed(q: Query, agenda: seq<Entry>, order: seq<nat>, i: nat)
    requires IsAgenda(q, agenda, order) && i < |q.tasks|
    ensures var t := q.tasks[i];
            var when := if t.due.Some? then t.due else t.start;
            var first := DateOf(q.now.wall) * DAY;
            && (!Inactive(t) && (IsCurrentTask(t, q) || IsOverdue(t, q)) ==> Entry(TaskItem(t), when) in agenda)
            && (!Inactive(t) && when.Some? && first <= Moment(when.value, q) < first + q.days * DAY ==>
                  Entry(TaskItem(t), when) in agenda)
            && (Inactive(t) || (when.None? && !IsCurrentTask(t, q)) ==> Entry(TaskItem(t), when) !in agenda)
            && (when.Some? && !(first <= Moment(when.value, q) < first + q.days * DAY) && !IsCurrentTask(t, q) &&
                !IsOverdue(t, q) ==>
                  Entry(TaskItem(t), when) !in agenda)
            && forall k, j :: 0 <= k < j < |agenda| && IsCurrentTask(t, q) && agenda[j].item == TaskItem(t) ==>
                 agenda[k].item.TaskItem? && IsCurrentTask(agenda[k].item.task, q)
  {
    hide Inactive, Before, SortKey, IsCurrentTask, IsBefore, WhenKey, DateOf;
    var t := q.tasks[i];
    if TaskWhen(t).Some? { RequestedDays(TaskWhen(t).value, q); }
    if Qualifying(t, q) {
      assert Qualifies(q, i);
      var j :| 0 <= j < |order| && order[j] == i;
      assert agenda[j] == Entry(TaskItem(t), TaskWhen(t));
    }
    forall k, j | 0 <= k < j < |agenda| && IsCurrentTask(t, q) && agenda[j].item == TaskItem(t)
      ensures agenda[k].item.TaskItem? && IsCurrentTask(agenda[k].item.task, q)
    {
      GroupsAreContiguous(q, agenda, order, k, j);
    }
  }

  /** The requested days as a stretch of `now`'s clock. */
  lemma RequestedDays(v: When, q: Query)
    ensures InRange(v, q) <==>
              DateOf(q.now.wall) * DAY <= Moment(v, q) < DateOf(q.now.wall) * DAY + q.days * DAY
  {
    hide DateOf;
    DayOfMoment(v, q);
    DateOfDay(DateOf(q.now.wall), Moment(v, q));
    DateOfDay(DateOf(q.now.wall) + q.days, Moment(v, q));
    assert (DateOf(q.now.wall) + q.days) * DAY == DateOf(q.now.wall) * DAY + q.days * DAY;
  }

  /** A status counts in any case and with blanks around it; whatever is not one of the two names after
      that leaves the task active. */
  lemma InactiveStatuses(t: Task, name: string)
    requires name != "" && !IsSpace(name[0]) && !IsSpace(name[|name| - 1])
    requires t.status == name || t.status == " " + name + " "
    ensures Inactive(t) <==>
              t.completed || TodoMapping.Upper(name) == "COMPLETED" || TodoMapping.Upper(name) == "CANCELLED"
  {
    hide Strip, TodoMapping.Upper;
    StripSolid(name);
    StripBlanks(name);
  }

  lemma StripSolid(s: string)
    requires s != "" && !IsSpace(s[0]) && !IsSpace(s[|s| - 1])
    ensures Strip(s) == s
  {
  }

  lemma StripBlanks(s: string)
    requires s != "" && !IsSpace(s[0]) && !IsSpace(s[|s| - 1])
    ensures Strip(" " + s + " ") == s
  {
    var padded, right := " " + s + " ", s + " ";
    assert padded[0] == ' ' && padded[1..] == right;
    assert right[0] == s[0] && right[|right| - 1] == ' ' && right[..|right| - 1] == s;
    StripSolid(s);
  }

  /** The two names, in either case, are inactive; the other names of a VTODO status are not. */
  lemma UpperStatuses()
    ensures TodoMapping.Upper("COMPLETED") == TodoMapping.Upper("Completed") == "COMPLETED"
    ensures TodoMapping.Upper("CANCELLED") == TodoMapping.Upper("cancelled") == "CANCELLED"
    ensures forall s :: |s| != 9 ==> TodoMapping.Upper(s) != "COMPLETED" && TodoMapping.Upper(s) != "CANCELLED"
  {
  }

  /** The blanks among the ASCII characters. */
  lemma AsciiBlanks(c: char)
    requires c < '\U{80}'
    ensures IsSpace(c) <==>
              c == ' ' || c == '\t' || c == '\n' || c == '\U{0b}' || c == '\U{0c}' || c == '\r' ||
              c == '\U{1c}' || c == '\U{1d}' || c == '\U{1e}' || c == '\U{1f}'
  {
  }

  /** The user state names the current task by its id, blanks around it aside. */
  lemma CurrentTaskLaw(t: Task, q: Query)
    ensures q.current == None || q.current == Some("") || q.current == Some(" ") ==> !IsCurrentTask(t, q)
    ensures q.current.Some? && q.current.value != "" && !IsSpace(q.current.value[0]) &&
            !IsSpace(q.current.value[|q.current.value| - 1]) ==>
              (IsCurrentTask(t, q) <==> t.id == q.current.value)
  {
    assert Strip(" ") == "" by { assert " "[1..] == ""; }
  }

  // ---- agreement with the choice of the next action ----

  /** Against an aware `now` both engines place a time on the same clock, so the agenda calls a task
      overdue exactly when the choice does, unless the task carries the flag itself. */
  lemma OverdueAgrees(t: Task, q: Query)
    requires q.now.offset.Some? && !t.overdue
    ensures IsOverdue(t, q) <==> Overdue(t, q.now)
  {
  }

  /** Against a naive `now` they disagree exactly on a due time that carries an offset, while `now`
      lies between its own reading and the host's, after the earlier and up to the later one. */
  lemma OverdueDisagreesNaive(t: Task, q: Query)
    requires q.now.offset.None? && !t.overdue
    ensures (IsOverdue(t, q) <==> Overdue(t, q.now)) <==>
              !(t.due.Some? && t.due.value.Stamp? && t.due.value.offset.Some? &&
                var own, host := t.due.value.wall, t.due.value.wall - t.due.value.offset.value + q.zone;
                Min(own, host) < q.now.wall <= Max(own, host))
  {
  }

  /** So they agree at every naive `now` exactly when the due time is a date, carries no offset, or
      carries the host's own. */
  lemma OverdueAgreesAlways(t: Task, q: Query)
    requires !t.overdue
    ensures (forall wall :: IsOverdue(t, q.(now := Now(wall, None))) <==> Overdue(t, Now(wall, None))) <==>
              (t.due.Some? && t.due.value.Stamp? && t.due.value.offset.Some? ==> t.due.value.offset.value == q.zone)
  {
    forall wall {
      OverdueDisagreesNaive(t, q.(now := Now(wall, None)));
    }
    if t.due.Some? && t.due.value.Stamp? && t.due.value.offset.Some? {
      var own, host := t.due.value.wall, t.due.value.wall - t.due.value.offset.value + q.zone;
      OverdueDisagreesNaive(t, q.(now := Now(Max(own, host), None)));
    }
  }

  function Min(a: int, b: int): int { if a < b then a else b }

  function Max(a: int, b: int): int { if a < b then b else a }

  /** A due time of 12:00 at offset +2h, seen at a naive 11:00 on a UTC host. */
  lemma NaiveNowDisagrees()
    ensures var hour := 3600 * SECOND;
            var t := Task("a", "", None, Some(Stamp(12 * hour, Some(2 * hour))), "NEEDS-ACTION", false, None, false);
            var q := Query([t], [], 1, Now(11 * hour, None), None, 0);
            IsOverdue(t, q) && !Overdue(t, q.now)
  {
  }

  /** An event takes up the moments from its start to its exclusive end. */
  predicate Occupies(e: Event, t: int, q: Query)
    requires e.start.Some? && e.end.Some?
  {
    Moment(e.start.value, q) <= t < Moment(e.end.value, q)
  }

  /** All-day, timed or mixed: an event with an extent is listed exactly when it takes up a moment of
      a requested day, except one whose exclusive end is the first requested midnight. That one is
      still listed although it is over. An event without extent, or without end, is listed with the
      day it starts. */
  lemma ListingLaw(e: Event, q: Query)
    requires q.days >= 1 && e.start.Some?
    ensures var first := DateOf(q.now.wall) * DAY;
            e.end.Some? && Moment(e.start.value, q) < Moment(e.end.value, q) ==>
              && ((Overlaps(e, q) <==> exists t :: Occupies(e, t, q) && first <= t < first + q.days * DAY)
                  <==> Moment(e.end.value, q) != first)
              && (Moment(e.end.value, q) == first ==> Overlaps(e, q))
    ensures var first := DateOf(q.now.wall) * DAY;
            e.end.None? || Moment(e.start.value, q) == Moment(e.end.value, q) ==>
              (Overlaps(e, q) <==> first <= Moment(e.start.value, q) < first + q.days * DAY)
  {
    hide DateOf;
    var start, first := e.start.value, DateOf(q.now.wall) * DAY;
    RequestedDays(start, q);
    DayOfMoment(start, q);
    DateOfDay(EndDay(q), Moment(start, q));
    if e.end.Some? {
      var last := Moment(e.end.value, q);
      DayOfMoment(e.end.value, q);
      DateOfDay(StartDay(q), last);
      if Moment(start, q) < last && Overlaps(e, q) && last != first {
        var t := Max(Moment(start, q), first);
        assert Occupies(e, t, q) && first <= t < first + q.days * DAY;
      }
    }
  }

  lemma DayOfMoment(v: When, q: Query)
    ensures DayOf(v, q) == DateOf(Moment(v, q))
  {
  }

  /** Against an aware `now` the next-action engine regards such an event as past. */
  lemma ListedButPast(e: Event, q: Query)
    requires q.now.offset.Some? && e.start.Some? && e.end.Some?
    requires Moment(e.start.value, q) < Moment(e.end.value, q) == DateOf(q.now.wall) * DAY
    ensures Past(e, e.start, q.now)
  {
  }
}
