/** Whole runs of the work-session system: the four actions, reconciliation, and whatever other
    clients do to the tasks. */
module WorkRuns {
  import opened Prelude
  import opened UriIdentity
  import opened WorkPlan
  import opened JsText
  import opened RecordTexts
  import opened WorkLaws

  /** The provider's tasks and the single current-work pointer. */
  datatype World = World(tasks: map<Identity, Task>, current: Option<string>)

  datatype Op =
    | Act(action: Action, selected: Identity, at: nat, token: string)
    | Reconcile
    | External(task: Task)
    | Delete(ref: Identity)

  function PointedTask(w: World): Option<Task> {
    match ParseIdentity(w.current)
    case Ok(Some(ref)) => if ref in w.tasks then Some(w.tasks[ref]) else None
    case _ => None
  }

  /** Write the planned task, read it back, then move the pointer. */
  function Commit(w: World, task: Task, plan: Plan): World {
    World(w.tasks[task.ref := Written(plan, task)], plan.nextCurrentWorkId)
  }

  function Execute(w: World, action: Action, selected: Identity, at: nat, token: string): World {
    var target := if action == Start then (if selected in w.tasks then Some(w.tasks[selected]) else None) else PointedTask(w);
    match target
    case None => w
    case Some(task) =>
      var finished: Result<Option<Reconciliation>, CoreError> := if action == Start then Ok(None) else PlanReconciliation(w.current, task);
      match finished
      case Err(_) => w
      case Ok(Some(_)) => w.(current := None)
      case Ok(None) =>
        match PlanWorkAction(action, w.current, task, at, token)
        case Err(_) => w
        case Ok(plan) => Commit(w, task, plan)
  }

  function ReconcileNow(w: World): World {
    match PointedTask(w)
    case None => w
    case Some(task) =>
      match PlanReconciliation(w.current, task)
      case Ok(Some(_)) => w.(current := None)
      case _ => w
  }

  function Step(w: World, op: Op): World {
    match op
    case Act(action, selected, at, token) => Execute(w, action, selected, at, token)
    case Reconcile => ReconcileNow(w)
    case External(task) => w.(tasks := w.tasks[task.ref := task])
    case Delete(ref) => w.(tasks := w.tasks - {ref})
  }

  function Run(w: World, ops: seq<Op>): World
  {
    if ops == [] then w else Step(Run(w, ops[..|ops| - 1]), ops[|ops| - 1])
  }

  // ---- hypotheses ----

  /** The task has an open session. */
  predicate HasOpen(task: Task) {
    Sessions(task.description).Ok? && OpenIndex(Sessions(task.description).value).Some?
  }

  function OpenSession(task: Task): Session
    requires HasOpen(task)
  {
    var history := Sessions(task.description).value;
    history[OpenIndex(history).value]
  }

  /** A start token is new for its task and has no dollar pair that `replace` interprets; another client may change
      status, percentage and text, but neither reopens a finished task nor edits the records, and a
      created task is not the one `currentWorkId` names. */
  predicate Admissible(w: World, op: Op) {
    match op
    case Act(action, selected, at, token) =>
      action == Start && selected in w.tasks && Sessions(w.tasks[selected].description).Ok? ==>
        Literal(token) &&
        var history := Sessions(w.tasks[selected].description).value;
        forall i :: 0 <= i < |history| ==> history[i].token != token
    case Reconcile => true
    case External(task) =>
      if task.ref in w.tasks then
        && Sessions(task.description) == Sessions(w.tasks[task.ref].description)
        && (Finished(w.tasks[task.ref].status) ==> Finished(task.status))
      else !HasOpen(task) && (WriteIdentity(task.ref).Ok? ==> w.current != Some(WriteIdentity(task.ref).value))
    case Delete(_) => true
  }

  ghost predicate AdmissibleRun(w: World, ops: seq<Op>) {
    forall i :: 0 <= i < |ops| ==> Admissible(Run(w, ops[..i]), ops[i])
  }

  // ---- the invariant ----

  /** An unfinished task with an open session is the one `currentWorkId` names. */
  ghost predicate PointerNamesOpen(w: World) {
    forall ref :: ref in w.tasks && HasOpen(w.tasks[ref]) && !Finished(w.tasks[ref].status) ==>
                    WriteIdentity(ref).Ok? && w.current == Some(WriteIdentity(ref).value)
  }

  /** The task `currentWorkId` names is finished, or its open session is its own and can be closed. */
  predicate Closable(task: Task, key: string) {
    Finished(task.status) || (HasOpen(task) && OpenSession(task).identity == key && Literal(OpenSession(task).token))
  }

  ghost predicate Inv(w: World) {
    && (forall ref :: ref in w.tasks ==> w.tasks[ref].ref == ref)
    && PointerNamesOpen(w)
    && (forall ref :: ref in w.tasks && WriteIdentity(ref).Ok? && w.current == Some(WriteIdentity(ref).value) ==>
          Closable(w.tasks[ref], WriteIdentity(ref).value))
  }

  /** What a plan says about the task it was made for. */
  lemma PlanStartNeeds(currentWorkId: Option<string>, task: Task, at: nat, token: string)
    requires PlanWorkAction(Start, currentWorkId, task, at, token).Ok?
    ensures currentWorkId == None && WriteIdentity(task.ref).Ok? && !Finished(task.status)
    ensures Sessions(task.description).Ok? && OpenIndex(Sessions(task.description).value) == None
    ensures task.percentComplete >= 0
    ensures PlanWorkAction(Start, currentWorkId, task, at, token).value.nextCurrentWorkId == Some(WriteIdentity(task.ref).value)
  {
  }

  lemma PlanCloseNeeds(action: Action, currentWorkId: Option<string>, task: Task, at: nat, token: string)
    requires action != Start && PlanWorkAction(action, currentWorkId, task, at, token).Ok?
    ensures WriteIdentity(task.ref).Ok? && currentWorkId == Some(WriteIdentity(task.ref).value) && !Finished(task.status)
    ensures Sessions(task.description).Ok? && OpenIndex(Sessions(task.description).value).Some?
    ensures AtMostOneOpen(Sessions(task.description).value)
  {
  }

  /** A started task has the session that was just begun open. */
  lemma StartIsOpen(currentWorkId: Option<string>, task: Task, at: nat, token: string)
    requires PlanWorkAction(Start, currentWorkId, task, at, token).Ok?
    requires forall i :: 0 <= i < |Sessions(task.description).value| ==> Sessions(task.description).value[i].token != token
    ensures var started := Written(PlanWorkAction(Start, currentWorkId, task, at, token).value, task);
            HasOpen(started) && OpenSession(started) == StartRecord(WriteIdentity(task.ref).value, task, at, token)
  {
    hide Sessions, WriteIdentity, PlanWorkAction, ValidSession, Prose, OpenIndex;
    PlanStartNeeds(currentWorkId, task, at, token);
    StartLaw(currentWorkId, task, at, token);
    OpenLast(Sessions(task.description).value, StartRecord(WriteIdentity(task.ref).value, task, at, token));
  }

  lemma StartKeepsInv(w: World, task: Task, at: nat, token: string)
    requires Inv(w) && task.ref in w.tasks && w.tasks[task.ref] == task
    requires Admissible(w, Act(Start, task.ref, at, token))
    requires PlanWorkAction(Start, w.current, task, at, token).Ok?
    ensures Inv(Commit(w, task, PlanWorkAction(Start, w.current, task, at, token).value))
  {
    hide Sessions, WriteIdentity, PlanWorkAction, ValidSession, Prose, OpenIndex, ParseIdentity;
    PlanStartNeeds(w.current, task, at, token);
    StartIsOpen(w.current, task, at, token);
    var w' := Commit(w, task, PlanWorkAction(Start, w.current, task, at, token).value);
    assert Closable(w'.tasks[task.ref], WriteIdentity(task.ref).value);
    forall ref | ref in w'.tasks && WriteIdentity(ref).Ok? && w'.current == Some(WriteIdentity(ref).value)
      ensures Closable(w'.tasks[ref], WriteIdentity(ref).value)
    {
      IdentityInjective(ref, task.ref);
    }
  }

  lemma CloseKeepsInv(w: World, action: Action, task: Task, at: nat, token: string)
    requires Inv(w) && task.ref in w.tasks && w.tasks[task.ref] == task && action != Start
    requires PlanWorkAction(action, w.current, task, at, token).Ok?
    ensures Inv(Commit(w, task, PlanWorkAction(action, w.current, task, at, token).value))
    ensures !HasOpen(Written(PlanWorkAction(action, w.current, task, at, token).value, task))
  {
    hide Sessions, WriteIdentity, PlanWorkAction, Prose, OpenIndex, AtMostOneOpen, ParseIdentity;
    PlanCloseNeeds(action, w.current, task, at, token);
    var plan := PlanWorkAction(action, w.current, task, at, token).value;
    var history := Sessions(task.description).value;
    var k := OpenIndex(history).value;
    assert Closable(task, WriteIdentity(task.ref).value);
    LiteralInsertsNothing(OpenToken(task));
    CloseLaw(action, w.current, task, at, token);
    NoneOpen(history, k, Closed(history[k], action, at));
    var w' := Commit(w, task, plan);
    assert !HasOpen(w'.tasks[task.ref]);
    forall ref | ref in w'.tasks && HasOpen(w'.tasks[ref]) && !Finished(w'.tasks[ref].status)
      ensures false
    {
      IdentityInjective(ref, task.ref);
    }
  }

  lemma NoneOpen(history: seq<Session>, k: nat, closed: Session)
    requires AtMostOneOpen(history) && OpenIndex(history) == Some(k) && closed.end.Some?
    ensures OpenIndex(history[k := closed]).None?
  {
  }

  /** Releasing the pointer of a finished task keeps the invariant. */
  lemma ReleaseKeepsInv(w: World, task: Task)
    requires Inv(w) && task.ref in w.tasks && w.tasks[task.ref] == task
    requires PlanReconciliation(w.current, task).Ok? && PlanReconciliation(w.current, task).value.Some?
    ensures Inv(w.(current := None))
  {
    forall ref | ref in w.tasks && HasOpen(w.tasks[ref]) && !Finished(w.tasks[ref].status)
      ensures false
    {
      IdentityInjective(ref, task.ref);
    }
  }

  lemma StepKeepsInv(w: World, op: Op)
    requires Inv(w) && Admissible(w, op)
    ensures Inv(Step(w, op))
  {
    hide Sessions, WriteIdentity, PlanWorkAction, PlanReconciliation, ParseIdentity;
    match op
    case Reconcile =>
      var target := PointedTask(w);
      if target.Some? && PlanReconciliation(w.current, target.value).Ok? &&
         PlanReconciliation(w.current, target.value).value.Some? {
        ReleaseKeepsInv(w, target.value);
      }
    case External(task) =>
    case Delete(ref) =>
    case Act(action, selected, at, token) =>
      if action == Start {
        if selected in w.tasks && PlanWorkAction(Start, w.current, w.tasks[selected], at, token).Ok? {
          StartKeepsInv(w, w.tasks[selected], at, token);
        }
      } else if PointedTask(w).Some? {
        var task := PointedTask(w).value;
        var finished := PlanReconciliation(w.current, task);
        if finished.Ok? && finished.value.Some? {
          ReleaseKeepsInv(w, task);
        } else if finished.Ok? && PlanWorkAction(action, w.current, task, at, token).Ok? {
          CloseKeepsInv(w, action, task, at, token);
        }
      }
  }

  /** In every reachable state an unfinished task with an open session is the current one. */
  lemma {:induction false} RunKeepsInv(w: World, ops: seq<Op>)
    requires Inv(w) && AdmissibleRun(w, ops)
    ensures Inv(Run(w, ops))
  {
    if ops != [] {
      var n := |ops| - 1;
      var init := ops[..n];
      forall i | 0 <= i < n ensures Admissible(Run(w, init[..i]), init[i]) {
        assert init[..i] == ops[..i];
      }
      RunKeepsInv(w, init);
      StepKeepsInv(Run(w, init), ops[n]);
    }
  }

  /** So at most one unfinished task is ever open. */
  lemma AtMostOneTaskOpen(w: World, ops: seq<Op>, a: Identity, b: Identity)
    requires Inv(w) && AdmissibleRun(w, ops)
    requires var s := Run(w, ops);
             a in s.tasks && HasOpen(s.tasks[a]) && !Finished(s.tasks[a].status) &&
             b in s.tasks && HasOpen(s.tasks[b]) && !Finished(s.tasks[b].status)
    ensures a == b
  {
    RunKeepsInv(w, ops);
    IdentityInjective(a, b);
  }

  /** And the current work can always be ended: whatever the run was, an unfinished current task
      is closed by any later stop, completion or cancellation, which releases the pointer and leaves
      the task as it was before the start, completed or cancelled. */
  lemma CurrentWorkCanEnd(w: World, ops: seq<Op>, s: World, ref: Identity, action: Action, at: nat, token: string)
    requires Inv(w) && AdmissibleRun(w, ops) && s == Run(w, ops) && action != Start
    requires ref in s.tasks && WriteIdentity(ref).Ok? && s.current == Some(WriteIdentity(ref).value)
    requires !Finished(s.tasks[ref].status) && (HasOpen(s.tasks[ref]) ==> OpenSession(s.tasks[ref]).start <= at)
    ensures Step(s, Act(action, ref, at, token)).current == None
    ensures ref in Step(s, Act(action, ref, at, token)).tasks
    ensures !HasOpen(Step(s, Act(action, ref, at, token)).tasks[ref])
    ensures HasOpen(s.tasks[ref])
    ensures var was, now := s.tasks[ref], Step(s, Act(action, ref, at, token)).tasks[ref];
            && (action == Stop ==>
                  now.status == OpenSession(was).beforeStatus && now.percentComplete == OpenSession(was).beforePercent)
            && (action == Complete ==> now.status == "COMPLETED" && now.percentComplete == 100)
            && (action == Cancel ==> now.status == "CANCELLED" && now.percentComplete == was.percentComplete)
  {
    hide Sessions, WriteIdentity, PlanWorkAction, Prose, OpenIndex, ParseIdentity, Run;
    RunKeepsInv(w, ops);
    var task := s.tasks[ref];
    assert Closable(task, WriteIdentity(ref).value);
    IdentityRoundTrip(ref);
    ClosePossible(action, task, at, token);
    assert PointedTask(s) == Some(task);
    CloseKeepsInv(s, action, task, at, token);
    LiteralInsertsNothing(OpenToken(task));
    CloseLaw(action, s.current, task, at, token);
    CloseOutcome(action, s.current, task, at, token);
  }

  /** One work session as a run: from any reachable state without current work, a start marks the task in
      process and makes it current, and a stop leaves every task as it was but for the one
      closed record behind the started task's text. */
  lemma WorkSession(w: World, ops: seq<Op>, ref: Identity, at: nat, token: string, later: nat, other: string)
    requires Inv(w) && AdmissibleRun(w, ops)
    requires var s := Run(w, ops);
             && s.current == None && ref in s.tasks && Admissible(s, Act(Start, ref, at, token))
             && PlanWorkAction(Start, None, s.tasks[ref], at, token).Ok? && at <= later
    ensures WriteIdentity(ref).Ok?
    ensures var s := Run(w, ops);
            var begun := Run(w, ops + [Act(Start, ref, at, token)]);
            var ended := Run(w, ops + [Act(Start, ref, at, token), Act(Stop, ref, later, other)]);
            var task := s.tasks[ref];
            var key := WriteIdentity(ref).value;
            var closed := Session(key, token, at, task.status, task.percentComplete, Some(later), Some("stop"));
            && begun.current == Some(key) && begun.tasks.Keys == s.tasks.Keys
            && begun.tasks[ref].status == "IN-PROCESS" && begun.tasks[ref].percentComplete == task.percentComplete
            && ended == World(s.tasks[ref := Task(ref, task.status, task.percentComplete,
                                                  task.description + (Marker() + WriteSession(closed)))], None)
  {
    hide Sessions, WriteIdentity, PlanWorkAction, PlanReconciliation, Prose, OpenIndex, ParseIdentity, Run, Inv, Literal,
         Marker, WriteSession, ValidSession, Admissible, Commit, Step;
    RunKeepsInv(w, ops);
    var s := Run(w, ops);
    TasksKeepRefs(s);
    RunMore(w, ops, Act(Start, ref, at, token));
    RunMore(w, ops + [Act(Start, ref, at, token)], Act(Stop, ref, later, other));
    assert ops + [Act(Start, ref, at, token), Act(Stop, ref, later, other)] ==
           ops + [Act(Start, ref, at, token)] + [Act(Stop, ref, later, other)];
    assert WriteIdentity(ref).Ok? by { PlanStartNeeds(None, s.tasks[ref], at, token); }
    SessionSteps(s, ref, at, token, later, other);
  }

  /** The same as two steps from a world without current work. */
  lemma SessionSteps(s: World, ref: Identity, at: nat, token: string, later: nat, other: string)
    requires s.current == None && ref in s.tasks && s.tasks[ref].ref == ref && Admissible(s, Act(Start, ref, at, token))
    requires PlanWorkAction(Start, None, s.tasks[ref], at, token).Ok? && at <= later
    ensures var begun := Step(s, Act(Start, ref, at, token));
            var ended := Step(begun, Act(Stop, ref, later, other));
            var task := s.tasks[ref];
            var key := WriteIdentity(ref).value;
            var closed := Session(key, token, at, task.status, task.percentComplete, Some(later), Some("stop"));
            && begun.current == Some(key) && begun.tasks.Keys == s.tasks.Keys
            && begun.tasks[ref].status == "IN-PROCESS" && begun.tasks[ref].percentComplete == task.percentComplete
            && ended == World(s.tasks[ref := Task(ref, task.status, task.percentComplete,
                                                  task.description + (Marker() + WriteSession(closed)))], None)
  {
    hide Sessions, WriteIdentity, PlanWorkAction, PlanReconciliation, Prose, OpenIndex, ParseIdentity, Literal,
         Marker, WriteSession, ValidSession, Admissible, Commit, Step, Verified;
    FreshToken(s, ref, at, token);
    BeginStep(s, ref, at, token);
    StartStopLaw(s.tasks[ref], at, token, later);
    EndStep(s, ref, at, token, later, other);
  }

  lemma FreshToken(w: World, ref: Identity, at: nat, token: string)
    requires ref in w.tasks && Admissible(w, Act(Start, ref, at, token))
    requires PlanWorkAction(Start, None, w.tasks[ref], at, token).Ok?
    ensures Literal(token) && Sessions(w.tasks[ref].description).Ok?
    ensures forall i :: 0 <= i < |Sessions(w.tasks[ref].description).value| ==>
                          Sessions(w.tasks[ref].description).value[i].token != token
  {
    PlanStartNeeds(None, w.tasks[ref], at, token);
    hide Sessions, PlanWorkAction, Literal;
  }

  /** The step of a start that can be planned. */
  lemma BeginStep(w: World, ref: Identity, at: nat, token: string)
    requires ref in w.tasks && w.tasks[ref].ref == ref && w.current == None
    requires PlanWorkAction(Start, None, w.tasks[ref], at, token).Ok?
    ensures var plan := PlanWorkAction(Start, None, w.tasks[ref], at, token).value;
            && WriteIdentity(ref).Ok?
            && Step(w, Act(Start, ref, at, token)) == World(w.tasks[ref := Written(plan, w.tasks[ref])], Some(WriteIdentity(ref).value))
            && plan.expected.status == "IN-PROCESS" && plan.expected.percentComplete == w.tasks[ref].percentComplete
            && plan.nextCurrentWorkId == Some(WriteIdentity(ref).value)
  {
    hide Sessions, WriteIdentity, PlanWorkAction, PlanReconciliation, Prose, OpenIndex, ParseIdentity, Marker, WriteSession, ValidSession;
    PlanStartNeeds(None, w.tasks[ref], at, token);
    StartLaw(None, w.tasks[ref], at, token);
  }

  /** The stop that follows it. */
  lemma EndStep(w: World, ref: Identity, at: nat, token: string, later: nat, other: string)
    requires ref in w.tasks && w.tasks[ref].ref == ref && WriteIdentity(ref).Ok?
    requires PlanWorkAction(Start, None, w.tasks[ref], at, token).Ok?
    requires var plan := PlanWorkAction(Start, None, w.tasks[ref], at, token).value;
             var working := Written(plan, w.tasks[ref]);
             && plan.nextCurrentWorkId == Some(WriteIdentity(ref).value)
             && PlanWorkAction(Stop, Some(WriteIdentity(ref).value), working, later, token).Ok?
             && PlanWorkAction(Stop, Some(WriteIdentity(ref).value), working, later, token).value.nextCurrentWorkId == None
    ensures var plan := PlanWorkAction(Start, None, w.tasks[ref], at, token).value;
            var working := Written(plan, w.tasks[ref]);
            var stop := PlanWorkAction(Stop, Some(WriteIdentity(ref).value), working, later, token).value;
            Step(World(w.tasks[ref := working], Some(WriteIdentity(ref).value)), Act(Stop, ref, later, other)) ==
            World(w.tasks[ref := Task(ref, stop.expected.status, stop.expected.percentComplete, stop.expected.description)], None)
  {
    hide Sessions, WriteIdentity, PlanWorkAction, Step;
    var plan := PlanWorkAction(Start, None, w.tasks[ref], at, token).value;
    var working := Written(plan, w.tasks[ref]);
    var begun := World(w.tasks[ref := working], Some(WriteIdentity(ref).value));
    StopStep(begun, ref, later, token, other);
  }

  lemma TasksKeepRefs(w: World)
    requires Inv(w)
    ensures forall ref :: ref in w.tasks ==> w.tasks[ref].ref == ref
  {
  }

  /** The step of a stop that can be planned; the token it is given plays no part. */
  lemma StopStep(w: World, ref: Identity, at: nat, token: string, other: string)
    requires ref in w.tasks && w.tasks[ref].ref == ref && WriteIdentity(ref).Ok? && w.current == Some(WriteIdentity(ref).value)
    requires PlanWorkAction(Stop, w.current, w.tasks[ref], at, token).Ok?
    ensures Step(w, Act(Stop, ref, at, other)) ==
            Commit(w, w.tasks[ref], PlanWorkAction(Stop, w.current, w.tasks[ref], at, token).value)
  {
    PlanCloseNeeds(Stop, w.current, w.tasks[ref], at, token);
    SamePlan(Stop, w.current, w.tasks[ref], at, token, other);
    IdentityRoundTrip(ref);
    hide Sessions, WriteIdentity, PlanWorkAction, ParseIdentity, OpenIndex;
    assert PointedTask(w) == Some(w.tasks[ref]);
  }

  lemma SamePlan(action: Action, currentWorkId: Option<string>, task: Task, at: nat, token: string, other: string)
    requires action != Start
    ensures PlanWorkAction(action, currentWorkId, task, at, token) == PlanWorkAction(action, currentWorkId, task, at, other)
  {
    hide Sessions, WriteIdentity, OpenIndex, LineOf, Split, ClosingChanges, Finished;
  }

  /** Work that was finished outside the four actions: reconciliation releases the pointer exactly if the
      task it finds is completed or cancelled; a stop, completion or cancellation then releases it
      too and leaves the task as it is. */
  lemma FinishedOutside(w: World, ops: seq<Op>, ref: Identity, action: Action, at: nat, token: string)
    requires Inv(w) && AdmissibleRun(w, ops) && action != Start
    requires var s := Run(w, ops);
             ref in s.tasks && WriteIdentity(ref).Ok? && s.current == Some(WriteIdentity(ref).value)
    ensures var s := Run(w, ops);
            var finished := s.tasks[ref].status == "COMPLETED" || s.tasks[ref].status == "CANCELLED";
            && Run(w, ops + [Reconcile]) == (if finished then World(s.tasks, None) else s)
            && (finished ==> Run(w, ops + [Act(action, ref, at, token)]) == World(s.tasks, None))
  {
    hide Sessions, WriteIdentity, PlanWorkAction, ParseIdentity, OpenIndex, Run, Inv;
    RunKeepsInv(w, ops);
    TasksKeepRefs(Run(w, ops));
    IdentityRoundTrip(ref);
    RunMore(w, ops, Reconcile);
    RunMore(w, ops, Act(action, ref, at, token));
  }

  /** The same seen from the other client: it finishes the current task, and reconciliation releases the pointer
      and keeps the other client's version; it deletes the current task, and neither action nor reconciliation does
      anything. */
  lemma CurrentTaskElsewhere(w: World, ops: seq<Op>, task: Task, op: Op)
    requires Inv(w) && AdmissibleRun(w, ops) && Admissible(Run(w, ops), External(task))
    requires WriteIdentity(task.ref).Ok? && Run(w, ops).current == Some(WriteIdentity(task.ref).value)
    requires op.Act? || op.Reconcile?
    ensures var s := Run(w, ops);
            && (task.status == "COMPLETED" || task.status == "CANCELLED" ==>
                  Run(w, ops + [External(task)] + [Reconcile]) == World(s.tasks[task.ref := task], None))
            && Run(w, ops + [Delete(task.ref)] + [op]) == World(s.tasks - {task.ref}, s.current)
  {
    hide Sessions, WriteIdentity, PlanWorkAction, ParseIdentity, OpenIndex, Run, Inv, Admissible, Execute;
    IdentityRoundTrip(task.ref);
    RunMore(w, ops, External(task));
    RunMore(w, ops + [External(task)], Reconcile);
    RunMore(w, ops, Delete(task.ref));
    RunMore(w, ops + [Delete(task.ref)], op);
    BlockedStep(World(Run(w, ops).tasks - {task.ref}, Run(w, ops).current), task.ref, op);
  }

  /** A current task that another client deletes blocks the work for good: as long as nobody
      creates it again, no start, closing action or reconciliation changes anything. */
  lemma {:induction false} DeletedWorkBlocks(w: World, ref: Identity, ops: seq<Op>)
    requires WriteIdentity(ref).Ok? && w.current == Some(WriteIdentity(ref).value) && ref !in w.tasks
    requires forall i :: 0 <= i < |ops| ==> ops[i].External? ==> ops[i].task.ref != ref
    ensures Run(w, ops).current == w.current && ref !in Run(w, ops).tasks
    ensures (forall i :: 0 <= i < |ops| ==> ops[i].Act? || ops[i].Reconcile?) ==> Run(w, ops) == w
  {
    if ops != [] {
      var n := |ops| - 1;
      DeletedWorkBlocks(w, ref, ops[..n]);
      IdentityRoundTrip(ref);
      BlockedStep(Run(w, ops[..n]), ref, ops[n]);
    }
  }

  lemma BlockedStep(w: World, ref: Identity, op: Op)
    requires WriteIdentity(ref).Ok? && w.current == Some(WriteIdentity(ref).value) && ref !in w.tasks
    requires op.External? ==> op.task.ref != ref
    ensures Step(w, op).current == w.current && ref !in Step(w, op).tasks
    ensures op.Act? || op.Reconcile? ==> Step(w, op) == w
  {
    IdentityRoundTrip(ref);
    if op.Act? && op.selected in w.tasks {
      OpenBlocksStart(w.current, w.tasks[op.selected], op.at, op.token);
    }
    hide Sessions, WriteIdentity, PlanWorkAction, ParseIdentity, OpenIndex;
  }

  lemma RunMore(w: World, ops: seq<Op>, op: Op)
    ensures Run(w, ops + [op]) == Step(Run(w, ops), op)
    ensures Run(w, []) == w
  {
    assert (ops + [op])[..|ops|] == ops;
  }

  // ---- a commit that is torn between its two writes ----

  /** The task was written, and the process ended before the pointer moved. */
  function Torn(w: World, task: Task, plan: Plan): World {
    w.(tasks := w.tasks[task.ref := Written(plan, task)])
  }

  /** A torn completion or cancellation is repaired by reconciliation, so exactly these keep the
      invariant. A torn start leaves an open session that `currentWorkId` does not name, a torn stop a pointer
      to a task without open session; after either, every further action on the task is refused. */
  lemma TornCommit(w: World, action: Action, task: Task, at: nat, token: string)
    requires Inv(w) && task.ref in w.tasks && w.tasks[task.ref] == task
    requires Admissible(w, Act(action, task.ref, at, token))
    requires PlanWorkAction(action, w.current, task, at, token).Ok?
    ensures var torn := Torn(w, task, PlanWorkAction(action, w.current, task, at, token).value);
            && (PointerNamesOpen(torn) <==> action != Start)
            && (Inv(torn) <==> action == Complete || action == Cancel)
            && (action == Start || action == Stop ==>
                  forall next, later, other :: PlanWorkAction(next, torn.current, torn.tasks[task.ref], later, other).Err?)
  {
    if action == Start {
      TornStart(w, task, at, token);
    } else {
      TornClose(w, action, task, at, token);
    }
  }

  lemma TornStart(w: World, task: Task, at: nat, token: string)
    requires Inv(w) && task.ref in w.tasks && w.tasks[task.ref] == task
    requires Admissible(w, Act(Start, task.ref, at, token))
    requires PlanWorkAction(Start, w.current, task, at, token).Ok?
    ensures var torn := Torn(w, task, PlanWorkAction(Start, w.current, task, at, token).value);
            && !PointerNamesOpen(torn)
            && forall next, later, other :: PlanWorkAction(next, torn.current, torn.tasks[task.ref], later, other).Err?
  {
    hide Sessions, WriteIdentity, PlanWorkAction, ValidSession, Prose, OpenIndex, Literal;
    PlanStartNeeds(w.current, task, at, token);
    StartedStatus(w.current, task, at, token);
    var torn := Torn(w, task, PlanWorkAction(Start, w.current, task, at, token).value);
    StartKeepsInv(w, task, at, token);
    var started := torn.tasks[task.ref];
    StartIsOpen(w.current, task, at, token);
    forall next, later, other ensures PlanWorkAction(next, torn.current, started, later, other).Err? {
      OpenBlocksStart(torn.current, started, later, other);
      NoPointerBlocksClosing(next, started, later, other);
    }
  }

  lemma StartedStatus(currentWorkId: Option<string>, task: Task, at: nat, token: string)
    requires PlanWorkAction(Start, currentWorkId, task, at, token).Ok?
    ensures PlanWorkAction(Start, currentWorkId, task, at, token).value.expected.status == "IN-PROCESS"
  {
    hide Sessions, WriteIdentity, OpenIndex;
  }

  lemma OpenBlocksStart(currentWorkId: Option<string>, task: Task, at: nat, token: string)
    requires HasOpen(task) || currentWorkId.Some?
    ensures PlanWorkAction(Start, currentWorkId, task, at, token).Err?
  {
  }

  lemma NoPointerBlocksClosing(action: Action, task: Task, at: nat, token: string)
    ensures action != Start ==> PlanWorkAction(action, None, task, at, token).Err?
  {
  }

  lemma NoSessionBlocksClosing(action: Action, currentWorkId: Option<string>, task: Task, at: nat, token: string)
    requires !HasOpen(task)
    ensures action != Start ==> PlanWorkAction(action, currentWorkId, task, at, token).Err?
  {
  }

  lemma TornClose(w: World, action: Action, task: Task, at: nat, token: string)
    requires Inv(w) && task.ref in w.tasks && w.tasks[task.ref] == task && action != Start
    requires PlanWorkAction(action, w.current, task, at, token).Ok?
    ensures var torn := Torn(w, task, PlanWorkAction(action, w.current, task, at, token).value);
            && PointerNamesOpen(torn)
            && (Inv(torn) <==> action != Stop)
            && (action == Stop ==>
                  forall next, later, other :: PlanWorkAction(next, torn.current, torn.tasks[task.ref], later, other).Err?)
  {
    hide Sessions, WriteIdentity, PlanWorkAction, OpenIndex, Literal;
    PlanCloseNeeds(action, w.current, task, at, token);
    CloseKeepsInv(w, action, task, at, token);
    ClosedStatus(action, w.current, task, at, token);
    var torn := Torn(w, task, PlanWorkAction(action, w.current, task, at, token).value);
    var closed := torn.tasks[task.ref];
    forall ref | ref in torn.tasks && WriteIdentity(ref).Ok? && torn.current == Some(WriteIdentity(ref).value)
      ensures ref == task.ref
    {
      IdentityInjective(ref, task.ref);
    }
    forall ref | ref in torn.tasks && HasOpen(torn.tasks[ref]) && !Finished(torn.tasks[ref].status) ensures ref in w.tasks && ref != task.ref {}
    if action == Stop {
      assert !Closable(closed, WriteIdentity(task.ref).value);
      forall next, later, other ensures PlanWorkAction(next, torn.current, closed, later, other).Err? {
        OpenBlocksStart(torn.current, closed, later, other);
        NoSessionBlocksClosing(next, torn.current, closed, later, other);
      }
    }
  }

  lemma ClosedStatus(action: Action, currentWorkId: Option<string>, task: Task, at: nat, token: string)
    requires action != Start && PlanWorkAction(action, currentWorkId, task, at, token).Ok?
    ensures Finished(PlanWorkAction(action, currentWorkId, task, at, token).value.expected.status) <==> action != Stop
  {
    hide Sessions, WriteIdentity, OpenIndex, ReadRecords, Split, Marker, Replace, WriteSession, LineOf;
    var history := Sessions(task.description).value;
    HistoryIsGood(task.description, history);
  }
}
