/** The work-session core: reading the session history out of a description, planning one
    action, and comparing a plan with what was read back. */
module WorkPlan {
  import opened Prelude
  import opened JsText
  import opened SessionCodec
  import opened UriIdentity

  datatype Action = Start | Stop | Complete | Cancel

  datatype Task = Task(ref: Identity, status: string, percentComplete: int, description: string)

  datatype Session = Session(identity: string, token: string, start: nat, beforeStatus: string, beforePercent: nat,
                             end: Option<nat>, result: Option<string>)

  datatype Changes = Changes(status: string, percentComplete: int, description: string)

  datatype Plan = Plan(action: Action, target: Identity, expected: Changes, nextCurrentWorkId: Option<string>)

  datatype CoreError = MalformedSession | InvalidSession | AmbiguousSessions | MissingIdentity
                     | FinishedTask | CurrentWorkExists | InvalidTask | NotCurrentTask | WrongSession | WorkChanged

  /** What every record in a description starts with. It begins a line and has no other newline,
      so two occurrences cannot overlap. */
  function Marker(): (m: string)
    ensures StartsLine(m) && '$' !in m
  {
    var tag := "[CalDAV Assistant session v1] ";
    assert (['\n'] + tag)[1..] == tag;
    ['\n'] + tag
  }

  predicate Startable(status: string) {
    status == "" || status == "NEEDS-ACTION" || status == "IN-PROCESS"
  }

  predicate Finished(status: string) {
    status == "COMPLETED" || status == "CANCELLED"
  }

  function ResultName(action: Action): string {
    match action
    case Start => "start"
    case Stop => "stop"
    case Complete => "complete"
    case Cancel => "cancel"
  }

  // ---- records ----

  predicate ValidFields(v: seq<Json>) {
    && |v| == 8
    && v[0] == JNat(1)
    && v[1].JStr?
    && v[2].JStr? && v[2].s != ""
    && v[3].JNat?
    && v[4].JStr? && Startable(v[4].s)
    && v[5].JNat? && v[5].n <= 99
    && (v[6].JNull? || v[6].JNat?)
    && (v[7].JNull? || (v[7].JStr? && (v[7].s == "stop" || v[7].s == "complete" || v[7].s == "cancel")))
    && (v[6].JNull? <==> v[7].JNull?)
  }

  function FromFields(v: seq<Json>): Session
    requires ValidFields(v)
  {
    Session(v[1].s, v[2].s, v[3].n, v[4].s, v[5].n,
            if v[6].JNull? then None else Some(v[6].n), if v[7].JNull? then None else Some(v[7].s))
  }

  function ToFields(s: Session): (v: seq<Json>)
    ensures |v| == |KEYS|
  {
    [JNat(1), JStr(s.identity), JStr(s.token), JNat(s.start), JStr(s.beforeStatus), JNat(s.beforePercent),
     if s.end.None? then JNull else JNat(s.end.value), if s.result.None? then JNull else JStr(s.result.value)]
  }

  function WriteSession(s: Session): string {
    Write(ToFields(s))
  }

  function ReadSession(line: string): Result<Session, CoreError> {
    match Read(line)
    case None => Err(MalformedSession)
    case Some(v) => if ValidFields(v) then Ok(FromFields(v)) else Err(InvalidSession)
  }

  /** The first line of every part after a marker, read in order; the first failure wins. */
  function ReadRecords(parts: seq<string>): Result<seq<Session>, CoreError> {
    if parts == [] then Ok([])
    else match ReadSession(FirstLine(parts[0]))
         case Err(e) => Err(e)
         case Ok(s) =>
           match ReadRecords(parts[1..])
           case Err(e) => Err(e)
           case Ok(rest) => Ok([s] + rest)
  }

  predicate DistinctTokens(records: seq<Session>) {
    forall i, j :: 0 <= i < j < |records| ==> records[i].token != records[j].token
  }

  predicate AtMostOneOpen(records: seq<Session>) {
    forall i, j :: 0 <= i < j < |records| ==> records[i].end.Some? || records[j].end.Some?
  }

  /** The session history inside a description. */
  function Sessions(description: string): Result<seq<Session>, CoreError> {
    match ReadRecords(Split(description, Marker())[1..])
    case Err(e) => Err(e)
    case Ok(records) =>
      if DistinctTokens(records) && AtMostOneOpen(records) then Ok(records) else Err(AmbiguousSessions)
  }

  /** The index of the open session, if there is one. */
  function OpenIndex(records: seq<Session>): (r: Option<nat>)
    ensures r.Some? ==> r.value < |records| && records[r.value].end.None? &&
                        forall i :: 0 <= i < r.value ==> records[i].end.Some?
    ensures r.None? ==> forall i :: 0 <= i < |records| ==> records[i].end.Some?
  {
    if records == [] then None
    else if records[0].end.None? then Some(0)
    else match OpenIndex(records[1..])
         case None => None
         case Some(i) =>
           assert forall j :: 0 < j < |records| ==> records[j] == records[1..][j - 1];
           Some(i + 1)
  }

  /** The line of the record that carries a token. */
  function LineOf(parts: seq<string>, token: string): (r: Option<string>) {
    if parts == [] then None
    else
      var line := FirstLine(parts[0]);
      match Read(line)
      case None => None
      case Some(v) => if |v| == 8 && v[2] == JStr(token) then Some(line) else LineOf(parts[1..], token)
  }

  // ---- planning ----

  function PlanWorkAction(action: Action, currentWorkId: Option<string>, task: Task, at: nat, token: string): Result<Plan, CoreError> {
    match WriteIdentity(task.ref)
    case Err(_) => Err(MissingIdentity)
    case Ok(key) =>
      match Sessions(task.description)
      case Err(e) => Err(e)
      case Ok(history) =>
        var open := OpenIndex(history);
        if Finished(task.status) then Err(FinishedTask)
        else if action == Start then
          if currentWorkId.Some? || open.Some? then Err(CurrentWorkExists)
          else if token == "" || !(0 <= task.percentComplete <= 99) || !Startable(task.status) then Err(InvalidTask)
          else
            var record := Session(key, token, at, task.status, task.percentComplete, None, None);
            Ok(Plan(action, task.ref,
                    Changes("IN-PROCESS", task.percentComplete, task.description + (Marker() + WriteSession(record))),
                    Some(key)))
        else if currentWorkId != Some(key) then Err(NotCurrentTask)
        else if open.None? || history[open.value].identity != key || at < history[open.value].start then Err(WrongSession)
        else
          var record := history[open.value];
          var line := LineOf(Split(task.description, Marker())[1..], record.token);
          if line.None? then Err(WrongSession)
          else Ok(Plan(action, task.ref, ClosingChanges(action, task, record, line.value, at), None))
  }

  function Closed(record: Session, action: Action, at: nat): Session {
    record.(end := Some(at), result := Some(ResultName(action)))
  }

  function ClosingChanges(action: Action, task: Task, record: Session, line: string, at: nat): Changes {
    Changes(
      match action case Complete => "COMPLETED" case Cancel => "CANCELLED" case _ => record.beforeStatus,
      match action case Complete => 100 case Cancel => task.percentComplete case _ => record.beforePercent,
      Replace(task.description, Marker() + line, Marker() + WriteSession(Closed(record, action, at))))
  }

  datatype Reconciliation = Reconciliation(target: Identity, observedStatus: string)

  /** Only the exact current task, observed as finished, releases the pointer. */
  function PlanReconciliation(currentWorkId: Option<string>, task: Task): Result<Option<Reconciliation>, CoreError> {
    if currentWorkId.None? || !Finished(task.status) then Ok(None)
    else match WriteIdentity(task.ref)
         case Err(_) => Err(MissingIdentity)
         case Ok(key) =>
           if currentWorkId != Some(key) then Err(WorkChanged) else Ok(Some(Reconciliation(task.ref, task.status)))
  }

  /** What was read back is what was planned. */
  predicate Verified(plan: Plan, actual: Task) {
    && WriteIdentity(plan.target) == WriteIdentity(actual.ref)
    && actual.status == plan.expected.status
    && actual.percentComplete == plan.expected.percentComplete
    && actual.description == plan.expected.description
  }

  /** The task as the provider holds it after the planned write. */
  function Written(plan: Plan, task: Task): Task {
    Task(task.ref, plan.expected.status, plan.expected.percentComplete, plan.expected.description)
  }
}
