/** Editing and reading a VTODO or VEVENT: a change set is written into iCalendar properties, and
    a Task or Event is read back out of them. */
module TodoMapping {
  import opened Prelude

  datatype Value = Text(s: string) | Instant(t: int) | Day(d: int) | Num(n: int) | Labels(l: seq<string>) | Flag(b: bool)

  type Props = map<string, Value>

  /** Present with None means "clear this field". */
  type Changes = map<string, Option<Value>>

  datatype EditError = UnsupportedField

  const TASK_FIELDS: seq<(string, string)> := [
    ("summary", "SUMMARY"), ("description", "DESCRIPTION"), ("start", "DTSTART"), ("due", "DUE"),
    ("status", "STATUS"), ("priority", "PRIORITY"), ("categories", "CATEGORIES")]

  const EVENT_FIELDS: seq<(string, string)> := [
    ("summary", "SUMMARY"), ("start", "DTSTART"), ("end", "DTEND"), ("location", "LOCATION"),
    ("description", "DESCRIPTION"), ("categories", "CATEGORIES")]

  /** Drop a property, then add the new value unless it is None. */
  function Replace(props: Props, name: string, value: Option<Value>): Props {
    if value.None? then props - {name} else props[name := value.value]
  }

  function ReplaceFields(props: Props, changes: Changes, fields: seq<(string, string)>): Props {
    if fields == [] then props
    else
      var init := ReplaceFields(props, changes, fields[..|fields| - 1]);
      var (field, name) := fields[|fields| - 1];
      if field in changes then Replace(init, name, changes[field]) else init
  }

  function UpperChar(c: char): char {
    if 'a' <= c <= 'z' then (c as int - 'a' as int + 'A' as int) as char else c
  }

  /** Upper case of the ASCII letters; no other letter's upper case occurs in a status name. */
  function Upper(s: string): string {
    seq(|s|, i requires 0 <= i < |s| => UpperChar(s[i]))
  }

  function TextOf(v: Option<Value>): string {
    if v.Some? && v.value.Text? then v.value.s else ""
  }

  function Get(props: Props, name: string): Option<Value> {
    if name in props then Some(props[name]) else None
  }

  /** `bool(value)`. */
  predicate Truthy(v: Option<Value>) {
    match v
    case None => false
    case Some(Flag(b)) => b
    case Some(Text(s)) => s != ""
    case Some(Num(n)) => n != 0
    case Some(Labels(l)) => l != []
    case Some(_) => true
  }

  function SetCompleted(props: Props, changes: Changes, now: int): Props {
    var p1 := if "status" in changes then props else props["STATUS" := Text("COMPLETED")];
    var p2 := p1["PERCENT-COMPLETE" := Num(100)];
    if "completed_at" in changes then p2 else p2["COMPLETED" := Instant(now)]
  }

  function ClearCompleted(props: Props, changes: Changes): Props {
    var p1 := (props - {"COMPLETED"})["PERCENT-COMPLETE" := Num(0)];
    if "status" !in changes && Upper(TextOf(Get(p1, "STATUS"))) == "COMPLETED" then p1["STATUS" := Text("NEEDS-ACTION")] else p1
  }

  function FinishByStatus(props: Props, now: int): Props {
    var p1 := props["PERCENT-COMPLETE" := Num(100)];
    if "COMPLETED" in p1 then p1 else p1["COMPLETED" := Instant(now)]
  }

  predicate StatusSaysCompleted(changes: Changes) {
    "status" in changes && Upper(TextOf(changes["status"])) == "COMPLETED"
  }

  /** The completion rules, applied after the plain fields. */
  function ApplyCompletion(props: Props, changes: Changes, now: int): Props {
    var p2 := if "completed_at" in changes then Replace(props, "COMPLETED", changes["completed_at"]) else props;
    var p3 := if "completed" !in changes then p2
              else if Truthy(changes["completed"]) then SetCompleted(p2, changes, now)
              else ClearCompleted(p2, changes);
    if StatusSaysCompleted(changes) && "completed" !in changes then FinishByStatus(p3, now) else p3
  }

  function EditTaskProps(props: Props, changes: Changes, now: int): Props {
    ApplyCompletion(ReplaceFields(props, changes, TASK_FIELDS), changes, now)
  }

  const TASK_KEYS := {"summary", "description", "start", "due", "status", "completed", "completed_at", "priority", "categories"}

  function EditTask(props: Props, changes: Changes, now: int): Result<Props, EditError> {
    if changes.Keys <= TASK_KEYS then Ok(EditTaskProps(props, changes, now)) else Err(UnsupportedField)
  }

  const EVENT_KEYS := {"summary", "start", "end", "location", "description", "categories"}

  function EditEvent(props: Props, changes: Changes): Result<Props, EditError> {
    if changes.Keys <= EVENT_KEYS then Ok(ReplaceFields(props, changes, EVENT_FIELDS)) else Err(UnsupportedField)
  }

  /** A loaded component, edited in place. */
  class Component {
    var props: Props

    constructor (props: Props)
      ensures this.props == props
    {
      this.props := props;
    }

    method ReplaceProperty(name: string, value: Option<Value>)
      modifies this
      ensures props == Replace(old(props), name, value)
    {
      props := props - {name};
      if value.Some? {
        props := props[name := value.value];
        assert (old(props) - {name})[name := value.value] == old(props)[name := value.value];
      }
    }

    method Edit(changes: Changes, now: int) returns (error: Option<EditError>)
      modifies this
      ensures error.None? <==> changes.Keys <= TASK_KEYS
      ensures error.None? ==> EditTask(old(props), changes, now) == Ok(props)
      ensures error.Some? ==> props == old(props)
    {
      if !(changes.Keys <= TASK_KEYS) {
        return Some(UnsupportedField);
      }
      for i := 0 to |TASK_FIELDS|
        invariant props == ReplaceFields(old(props), changes, TASK_FIELDS[..i])
      {
        var (field, name) := TASK_FIELDS[i];
        assert TASK_FIELDS[..i + 1][..i] == TASK_FIELDS[..i];
        if field in changes {
          ReplaceProperty(name, changes[field]);
        }
      }
      assert TASK_FIELDS[..|TASK_FIELDS|] == TASK_FIELDS;
      hide ReplaceFields, Upper;
      if "completed_at" in changes {
        ReplaceProperty("COMPLETED", changes["completed_at"]);
      }
      if "completed" in changes {
        if Truthy(changes["completed"]) {
          if "status" !in changes {
            ReplaceProperty("STATUS", Some(Text("COMPLETED")));
          }
          ReplaceProperty("PERCENT-COMPLETE", Some(Num(100)));
          if "completed_at" !in changes {
            ReplaceProperty("COMPLETED", Some(Instant(now)));
          }
        } else {
          props := props - {"COMPLETED"};
          ReplaceProperty("PERCENT-COMPLETE", Some(Num(0)));
          if "status" !in changes && Upper(TextOf(Get(props, "STATUS"))) == "COMPLETED" {
            ReplaceProperty("STATUS", Some(Text("NEEDS-ACTION")));
          }
        }
      }
      if StatusSaysCompleted(changes) && "completed" !in changes {
        ReplaceProperty("PERCENT-COMPLETE", Some(Num(100)));
        if "COMPLETED" !in props {
          ReplaceProperty("COMPLETED", Some(Instant(now)));
        }
      }
      error := None;
    }

    method EditAsEvent(changes: Changes) returns (error: Option<EditError>)
      modifies this
      ensures error.None? <==> changes.Keys <= EVENT_KEYS
      ensures error.None? ==> EditEvent(old(props), changes) == Ok(props)
      ensures error.Some? ==> props == old(props)
    {
      if !(changes.Keys <= EVENT_KEYS) {
        return Some(UnsupportedField);
      }
      for i := 0 to |EVENT_FIELDS|
        invariant props == ReplaceFields(old(props), changes, EVENT_FIELDS[..i])
      {
        var (field, name) := EVENT_FIELDS[i];
        assert EVENT_FIELDS[..i + 1][..i] == EVENT_FIELDS[..i];
        if field in changes {
          ReplaceProperty(name, changes[field]);
        }
      }
      assert EVENT_FIELDS[..|EVENT_FIELDS|] == EVENT_FIELDS;
      error := None;
    }
  }

  // ---- reading ----

  datatype Task = Task(summary: string, description: string, start: Option<Value>, due: Option<Value>, status: string,
                       completed: bool, completedAt: Option<int>, priority: Option<int>, categories: seq<string>)

  predicate ReadsCompleted(props: Props) {
    || Upper(ReadStatus(props)) == "COMPLETED"
    || "COMPLETED" in props
    || Get(props, "PERCENT-COMPLETE") == Some(Num(100))
  }

  function ReadStatus(props: Props): string {
    StatusOf(Get(props, "STATUS"))
  }

  function StatusOf(v: Option<Value>): string {
    if TextOf(v) == "" then "NEEDS-ACTION" else TextOf(v)
  }

  function NumOf(v: Option<Value>): Option<int> {
    if v.Some? && v.value.Num? then Some(v.value.n) else None
  }

  function LabelsOf(v: Option<Value>): seq<string> {
    if v.Some? && v.value.Labels? then v.value.l else []
  }

  function InstantOf(v: Option<Value>): Option<int> {
    if v.Some? && v.value.Instant? then Some(v.value.t) else None
  }

  function ToTask(props: Props): Task {
    Task(TextOf(Get(props, "SUMMARY")), TextOf(Get(props, "DESCRIPTION")), Get(props, "DTSTART"), Get(props, "DUE"),
         ReadStatus(props), ReadsCompleted(props), InstantOf(Get(props, "COMPLETED")),
         NumOf(Get(props, "PRIORITY")), LabelsOf(Get(props, "CATEGORIES")))
  }

  // ---- laws ----

  /** The new value of a field: what was asked for, or what was there. */
  function Wanted(props: Props, changes: Changes, field: string, name: string): Option<Value> {
    if field in changes then changes[field] else Get(props, name)
  }

  /** Replacing fields writes each changed one and nothing else. */
  lemma {:induction false} ReplaceFieldsLaw(props: Props, changes: Changes, fields: seq<(string, string)>)
    requires forall i, j :: 0 <= i < j < |fields| ==> fields[i].1 != fields[j].1
    ensures forall i :: 0 <= i < |fields| ==>
              Get(ReplaceFields(props, changes, fields), fields[i].1) == Wanted(props, changes, fields[i].0, fields[i].1)
    ensures forall name :: (forall i :: 0 <= i < |fields| ==> fields[i].1 != name) ==>
              Get(ReplaceFields(props, changes, fields), name) == Get(props, name)
  {
    if fields != [] {
      var init := fields[..|fields| - 1];
      ReplaceFieldsLaw(props, changes, init);
      assert forall i :: 0 <= i < |init| ==> fields[i] == init[i];
      var last := fields[|fields| - 1];
      assert Get(ReplaceFields(props, changes, init), last.1) == Get(props, last.1);
    }
  }

  lemma TaskFieldsLaw(props: Props, changes: Changes)
    ensures var p := ReplaceFields(props, changes, TASK_FIELDS);
            && Get(p, "SUMMARY") == Wanted(props, changes, "summary", "SUMMARY")
            && Get(p, "DESCRIPTION") == Wanted(props, changes, "description", "DESCRIPTION")
            && Get(p, "DTSTART") == Wanted(props, changes, "start", "DTSTART")
            && Get(p, "DUE") == Wanted(props, changes, "due", "DUE")
            && Get(p, "STATUS") == Wanted(props, changes, "status", "STATUS")
            && Get(p, "PRIORITY") == Wanted(props, changes, "priority", "PRIORITY")
            && Get(p, "CATEGORIES") == Wanted(props, changes, "categories", "CATEGORIES")
    ensures forall name :: name !in TASK_PROPERTIES ==>
              Get(ReplaceFields(props, changes, TASK_FIELDS), name) == Get(props, name)
  {
    hide ReplaceFields;
    ReplaceFieldsLaw(props, changes, TASK_FIELDS);
    assert TASK_FIELDS[0].1 == "SUMMARY" && TASK_FIELDS[1].1 == "DESCRIPTION" && TASK_FIELDS[2].1 == "DTSTART";
    assert TASK_FIELDS[3].1 == "DUE" && TASK_FIELDS[4].1 == "STATUS" && TASK_FIELDS[5].1 == "PRIORITY";
    assert TASK_FIELDS[6].1 == "CATEGORIES";
  }

  const TASK_PROPERTIES := {"SUMMARY", "DESCRIPTION", "DTSTART", "DUE", "STATUS", "PRIORITY", "CATEGORIES"}

  /** What each completion property holds after an edit. */
  function NewStatus(props: Props, changes: Changes): Option<Value> {
    if "status" in changes then changes["status"]
    else if "completed" !in changes then Get(props, "STATUS")
    else if Truthy(changes["completed"]) then Some(Text("COMPLETED"))
    else if Upper(TextOf(Get(props, "STATUS"))) == "COMPLETED" then Some(Text("NEEDS-ACTION"))
    else Get(props, "STATUS")
  }

  function NewPercent(props: Props, changes: Changes): Option<Value> {
    if "completed" in changes then Some(Num(if Truthy(changes["completed"]) then 100 else 0))
    else if StatusSaysCompleted(changes) then Some(Num(100))
    else Get(props, "PERCENT-COMPLETE")
  }

  function NewCompleted(props: Props, changes: Changes, now: int): Option<Value> {
    var asked := Wanted(props, changes, "completed_at", "COMPLETED");
    if "completed" in changes then
      if !Truthy(changes["completed"]) then None
      else if "completed_at" in changes then asked
      else Some(Instant(now))
    else if StatusSaysCompleted(changes) && asked.None? then Some(Instant(now))
    else asked
  }

  lemma CompletionByProperty(props: Props, changes: Changes, now: int)
    requires "status" in changes ==> Get(props, "STATUS") == changes["status"]
    ensures var p := ApplyCompletion(props, changes, now);
            && Get(p, "STATUS") == NewStatus(props, changes)
            && Get(p, "PERCENT-COMPLETE") == NewPercent(props, changes)
            && Get(p, "COMPLETED") == NewCompleted(props, changes, now)
            && forall name :: name !in {"STATUS", "PERCENT-COMPLETE", "COMPLETED"} ==> Get(p, name) == Get(props, name)
  {
  }

  /** The edit, property by property, in whatever order the code writes them. */
  lemma EditByProperty(props: Props, changes: Changes, now: int)
    ensures var p := EditTaskProps(props, changes, now);
            && Get(p, "STATUS") == NewStatus(props, changes)
            && Get(p, "PERCENT-COMPLETE") == NewPercent(props, changes)
            && Get(p, "COMPLETED") == NewCompleted(props, changes, now)
            && forall name :: name !in {"STATUS", "PERCENT-COMPLETE", "COMPLETED"} ==>
                 Get(p, name) == Get(ReplaceFields(props, changes, TASK_FIELDS), name)
  {
    var p1 := ReplaceFields(props, changes, TASK_FIELDS);
    TaskFieldsLaw(props, changes);
    assert Get(p1, "STATUS") == Wanted(props, changes, "status", "STATUS");
    assert Get(p1, "COMPLETED") == Get(props, "COMPLETED");
    assert Get(p1, "PERCENT-COMPLETE") == Get(props, "PERCENT-COMPLETE");
    SameRules(p1, props, changes, now);
    hide Get, Upper, ReplaceFields, ApplyCompletion, NewStatus, NewCompleted, NewPercent;
    CompletionByProperty(p1, changes, now);
  }

  lemma SameRules(p: Props, q: Props, changes: Changes, now: int)
    requires Get(p, "STATUS") == Wanted(q, changes, "status", "STATUS")
    requires Get(p, "COMPLETED") == Get(q, "COMPLETED") && Get(p, "PERCENT-COMPLETE") == Get(q, "PERCENT-COMPLETE")
    ensures NewStatus(p, changes) == NewStatus(q, changes)
    ensures NewPercent(p, changes) == NewPercent(q, changes)
    ensures NewCompleted(p, changes, now) == NewCompleted(q, changes, now)
  {
  }

  /** Reading after editing: plain fields read back as written, with None as the default,
      unmentioned ones are untouched, and every property the edit does not know survives. Status and
      completion time read back as the completion rules leave them. */
  lemma EditReadsBack(props: Props, changes: Changes, now: int)
    ensures var p := EditTaskProps(props, changes, now);
            && ToTask(p).summary == TextOf(Wanted(props, changes, "summary", "SUMMARY"))
            && ToTask(p).description == TextOf(Wanted(props, changes, "description", "DESCRIPTION"))
            && ToTask(p).start == Wanted(props, changes, "start", "DTSTART")
            && ToTask(p).due == Wanted(props, changes, "due", "DUE")
            && ToTask(p).priority == NumOf(Wanted(props, changes, "priority", "PRIORITY"))
            && ToTask(p).categories == LabelsOf(Wanted(props, changes, "categories", "CATEGORIES"))
            && ToTask(p).status == StatusOf(NewStatus(props, changes))
            && ("status" in changes ==> ToTask(p).status == StatusOf(changes["status"]))
            && ToTask(p).completedAt == InstantOf(NewCompleted(props, changes, now))
            && forall name :: name !in TASK_PROPERTIES && name != "COMPLETED" && name != "PERCENT-COMPLETE" ==>
                 Get(p, name) == Get(props, name)
  {
    hide ReplaceFields, Upper, EditTaskProps;
    TaskFieldsLaw(props, changes);
    EditByProperty(props, changes, now);
  }

  /** When exactly an edited task reads as completed. */
  predicate CompletedAfter(props: Props, changes: Changes) {
    if "completed" in changes then
      Truthy(changes["completed"]) || StatusSaysCompleted(changes)
    else
      || StatusSaysCompleted(changes)
      || ("status" !in changes && Upper(ReadStatus(props)) == "COMPLETED")
      || Wanted(props, changes, "completed_at", "COMPLETED").Some?
      || Get(props, "PERCENT-COMPLETE") == Some(Num(100))
  }

  lemma UpperDefaults()
    ensures Upper("NEEDS-ACTION") != "COMPLETED" && Upper("COMPLETED") == "COMPLETED" && Upper("") == ""
  {
  }

  /** Completion laws: `completed` true always reads completed, `completed` false without a
      status always reads not completed, a completed status alone reads completed, and in every
      other case the outcome is determined as stated. */
  lemma CompletionLaw(props: Props, changes: Changes, now: int)
    ensures ReadsCompleted(EditTaskProps(props, changes, now)) <==> CompletedAfter(props, changes)
  {
    hide ReplaceFields, Upper, EditTaskProps;
    EditByProperty(props, changes, now);
    UpperDefaults();
  }

  /** The same for the values a caller passes: marking a task completed always completes it, marking it
      not completed without a status always reopens it, and a completed status alone completes it. */
  lemma CompletedFlagLaw(props: Props, changes: Changes, now: int)
    ensures var task := ToTask(EditTaskProps(props, changes, now));
            && ("completed" in changes && changes["completed"] == Some(Flag(true)) ==> task.completed)
            && ("completed" in changes && (changes["completed"] == Some(Flag(false)) || changes["completed"] == None) &&
                "status" !in changes ==>
                  !task.completed && task.completedAt == None)
            && ("completed" !in changes && "status" in changes && changes["status"] == Some(Text("COMPLETED")) ==>
                  task.completed && task.status == "COMPLETED")
  {
    hide ReplaceFields, EditTaskProps, Upper;
    CompletionLaw(props, changes, now);
    EditReadsBack(props, changes, now);
    UpperDefaults();
  }

  /** Any other value of `completed` counts as its truth value does. */
  lemma CompletedTruth(props: Props, changes: Changes, now: int)
    requires "completed" in changes && changes["completed"].Some? && "status" !in changes
    ensures var task := ToTask(EditTaskProps(props, changes, now));
            match changes["completed"].value
            case Flag(b) => task.completed <==> b
            case Text(s) => task.completed <==> s != ""
            case Num(n) => task.completed <==> n != 0
            case Labels(l) => task.completed <==> l != []
            case Instant(_) => task.completed
            case Day(_) => task.completed
  {
    hide ReplaceFields, EditTaskProps, Upper;
    CompletionLaw(props, changes, now);
  }

  /** Reading back, for the values a caller passes: a value reads as itself and None as the default. */
  lemma ValuesReadBack(props: Props, changes: Changes, now: int, text: string, number: int, labels: seq<string>)
    ensures var task := ToTask(EditTaskProps(props, changes, now));
            && ("summary" in changes && changes["summary"] == Some(Text(text)) ==> task.summary == text)
            && ("summary" in changes && changes["summary"] == None ==> task.summary == "")
            && ("description" in changes && changes["description"] == Some(Text(text)) ==> task.description == text)
            && ("description" in changes && changes["description"] == None ==> task.description == "")
            && ("start" in changes ==> task.start == changes["start"])
            && ("due" in changes ==> task.due == changes["due"])
            && ("status" in changes && changes["status"] == Some(Text(text)) && text != "" ==> task.status == text)
            && ("status" in changes && changes["status"] == None ==> task.status == "NEEDS-ACTION")
            && ("priority" in changes && changes["priority"] == Some(Num(number)) ==> task.priority == Some(number))
            && ("priority" in changes && changes["priority"] == None ==> task.priority == None)
            && ("categories" in changes && changes["categories"] == Some(Labels(labels)) ==> task.categories == labels)
            && ("categories" in changes && changes["categories"] == None ==> task.categories == [])
            && ("completed" !in changes && "completed_at" in changes && changes["completed_at"] == Some(Instant(number)) ==>
                  task.completedAt == Some(number) && task.completed)
            && ("completed" in changes && changes["completed"] == Some(Flag(true)) && "completed_at" !in changes ==>
                  task.completedAt == Some(now))
  {
    hide ReplaceFields, EditTaskProps, Upper;
    EditReadsBack(props, changes, now);
    CompletionLaw(props, changes, now);
  }

  /** Upper case, letter by letter. */
  lemma UpperLetters()
    ensures Upper("abcdefghijklmnopqrstuvwxyz") == "ABCDEFGHIJKLMNOPQRSTUVWXYZ"
    ensures forall s: string :: (forall i :: 0 <= i < |s| ==> !('a' <= s[i] <= 'z')) ==> Upper(s) == s
  {
  }

  /** Editing again with the same changes at the same instant changes nothing. */
  lemma EditIdempotent(props: Props, changes: Changes, now: int)
    ensures var once := EditTaskProps(props, changes, now); EditTaskProps(once, changes, now) == once
  {
    hide ReplaceFields, Upper, EditTaskProps, Get, NewStatus, NewPercent, NewCompleted;
    var once := EditTaskProps(props, changes, now);
    var twice := EditTaskProps(once, changes, now);
    TaskFieldsLaw(props, changes);
    TaskFieldsLaw(once, changes);
    EditByProperty(props, changes, now);
    EditByProperty(once, changes, now);
    RulesTwice(props, once, changes, now);
    forall name ensures Get(once, name) == Get(twice, name) {
      if name in TASK_PROPERTIES {
        assert name == "STATUS" || Get(twice, name) == Get(once, name);
      }
    }
    SameProps(once, twice);
  }

  lemma RulesTwice(props: Props, once: Props, changes: Changes, now: int)
    requires Get(once, "STATUS") == NewStatus(props, changes)
    requires Get(once, "PERCENT-COMPLETE") == NewPercent(props, changes)
    requires Get(once, "COMPLETED") == NewCompleted(props, changes, now)
    ensures NewStatus(once, changes) == NewStatus(props, changes)
    ensures NewPercent(once, changes) == NewPercent(props, changes)
    ensures NewCompleted(once, changes, now) == NewCompleted(props, changes, now)
  {
  }

  lemma SameProps(p: Props, q: Props)
    requires forall name :: Get(p, name) == Get(q, name)
    ensures p == q
  {
    forall name ensures name in p <==> name in q {
      assert Get(p, name) == Get(q, name);
    }
    forall name | name in p ensures p[name] == q[name] {
      assert Get(p, name) == Get(q, name);
    }
  }

  /** An edited event reads back as written, and unmentioned or unknown properties survive. */
  lemma EventReadsBack(props: Props, changes: Changes)
    ensures var p := ReplaceFields(props, changes, EVENT_FIELDS);
            && Get(p, "SUMMARY") == Wanted(props, changes, "summary", "SUMMARY")
            && Get(p, "DTSTART") == Wanted(props, changes, "start", "DTSTART")
            && Get(p, "DTEND") == Wanted(props, changes, "end", "DTEND")
            && Get(p, "LOCATION") == Wanted(props, changes, "location", "LOCATION")
            && Get(p, "DESCRIPTION") == Wanted(props, changes, "description", "DESCRIPTION")
            && Get(p, "CATEGORIES") == Wanted(props, changes, "categories", "CATEGORIES")
            && forall name :: name !in {"SUMMARY", "DTSTART", "DTEND", "LOCATION", "DESCRIPTION", "CATEGORIES"} ==>
                 Get(p, name) == Get(props, name)
  {
    hide ReplaceFields;
    ReplaceFieldsLaw(props, changes, EVENT_FIELDS);
    assert EVENT_FIELDS[0].1 == "SUMMARY" && EVENT_FIELDS[1].1 == "DTSTART" && EVENT_FIELDS[2].1 == "DTEND";
    assert EVENT_FIELDS[3].1 == "LOCATION" && EVENT_FIELDS[4].1 == "DESCRIPTION" && EVENT_FIELDS[5].1 == "CATEGORIES";
  }
}
