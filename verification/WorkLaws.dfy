/** What planning does to the history stored in a description: exactly one record is added or
    closed, and the user's own text is never touched. */
module WorkLaws {
  import opened Prelude
  import opened JsText
  import opened SessionCodec
  import opened UriIdentity
  import opened WorkPlan
  import opened RecordTexts

  /** The records that were read are exactly what the first lines say. */
  lemma {:induction false} RecordsAreLines(parts: seq<string>, records: seq<Session>)
    ensures ReadRecords(parts) == Ok(records) <==>
              |records| == |parts| &&
              forall i :: 0 <= i < |parts| ==> ReadSession(FirstLine(parts[i])) == Ok(records[i])
  {
    hide ReadSession, FirstLine;
    if parts != [] {
      if records != [] {
        RecordsAreLines(parts[1..], records[1..]);
        assert records == [records[0]] + records[1..];
        assert forall i :: 1 <= i < |parts| ==> parts[i] == parts[1..][i - 1];
        assert forall i :: 1 <= i < |records| ==> records[i] == records[1..][i - 1];
      }
    }
  }

  /** Every record that was read is valid. */
  lemma ReadIsValid(line: string)
    requires ReadSession(line).Ok?
    ensures ValidSession(ReadSession(line).value)
    ensures Read(line).Some? && |Read(line).value| == 8 && Read(line).value[2] == JStr(ReadSession(line).value.token)
  {
  }

  lemma {:induction false} JoinAppend(parts: seq<string>, sep: string, last: string)
    requires |parts| >= 1
    ensures Join(parts + [last], sep) == Join(parts, sep) + (sep + last)
  {
    if |parts| == 1 {
      assert (parts + [last])[1..] == [last];
    } else {
      JoinAppend(parts[1..], sep, last);
      assert (parts + [last])[1..] == parts[1..] + [last];
      assert parts[0] + (sep + (Join(parts[1..], sep) + (sep + last))) ==
             (parts[0] + (sep + Join(parts[1..], sep))) + (sep + last);
    }
  }

  /** A text without newline contains no marker, and stays so in front of a clean rest. */
  lemma {:induction false} CleanLine(line: string, rest: string)
    requires '\n' !in line && Clean(rest, Marker())
    ensures Clean(line + rest, Marker())
  {
    if line == "" {
      assert line + rest == rest;
    } else {
      hide Marker;
      assert line[0] in line;
      CleanLine(line[1..], rest);
      var s := [line[0]] + (line[1..] + rest);
      assert line + rest == s;
      assert s[0] == line[0] && !(Marker() <= s);
      CleanCons(line[0], line[1..] + rest, Marker());
    }
  }

  lemma CleanWritten(line: string)
    requires '\n' !in line
    ensures Clean(line, Marker())
  {
  }

  lemma CleanTail(s: string, n: nat)
    requires n <= |s| && Clean(s, Marker())
    ensures Clean(s[n..], Marker())
  {
  }

  /** The text of a description outside its records. */
  function Prose(description: string): string {
    var parts := Split(description, Marker());
    parts[0] + Tails(parts[1..])
  }

  function Tails(parts: seq<string>): string {
    if parts == [] then "" else parts[0][|FirstLine(parts[0])|..] + Tails(parts[1..])
  }

  lemma {:induction false} TailsAppend(parts: seq<string>, line: string)
    requires FirstLine(line) == line
    ensures Tails(parts + [line]) == Tails(parts)
  {
    if parts == [] {
      assert [line][1..] == [];
    } else {
      TailsAppend(parts[1..], line);
      assert (parts + [line])[1..] == parts[1..] + [line];
    }
  }

  lemma {:induction false} TailsUpdate(parts: seq<string>, k: nat, part: string)
    requires k < |parts|
    requires part[|FirstLine(part)|..] == parts[k][|FirstLine(parts[k])|..]
    ensures Tails(parts[k := part]) == Tails(parts)
  {
    if k == 0 {
      assert parts[k := part][1..] == parts[1..];
    } else {
      TailsUpdate(parts[1..], k - 1, part);
      assert parts[k := part][1..] == parts[1..][k - 1 := part];
    }
  }

  /** The prose of a text without markers is that text; behind a marker only the rest of the line does
      not belong to it. */
  lemma ProseLaw(description: string, line: string, rest: string)
    requires '\n' !in line && Clean(rest, Marker()) && (rest == "" || rest[0] == '\n')
    ensures Clean(description, Marker()) ==> Prose(description) == description
    ensures Prose(description + (Marker() + (line + rest))) == Prose(description) + rest
  {
    hide Marker, Split, Join, FirstLine, Tails, Clean;
    var parts, last := Split(description, Marker()), line + rest;
    CleanIsUncut(description, Marker());
    WholeSplit(description, Marker());
    NoTails();
    LineThenRest(line, rest);
    CleanLine(line, rest);
    JoinSplit(description, Marker());
    JoinAppend(parts, Marker(), last);
    SplitJoin(parts + [last], Marker());
    assert (parts + [last])[1..] == parts[1..] + [last] && (parts + [last])[0] == parts[0];
    TailsLast(parts[1..], last);
    assert last[|line|..] == rest;
    assert parts[0] + (Tails(parts[1..]) + rest) == parts[0] + Tails(parts[1..]) + rest;
  }

  lemma NoTails()
    ensures Tails([]) == ""
  {
  }

  lemma WholeSplit(s: string, sep: string)
    requires sep != ""
    ensures Cut(s, sep).None? ==> Split(s, sep) == [s]
  {
  }

  lemma {:induction false} LineThenRest(line: string, rest: string)
    requires '\n' !in line && (rest == "" || rest[0] == '\n')
    ensures FirstLine(line + rest) == line
  {
    if line == "" {
      assert line + rest == rest;
    } else {
      assert line[0] in line && (line + rest)[1..] == line[1..] + rest;
      LineThenRest(line[1..], rest);
    }
  }

  lemma {:induction false} TailsLast(parts: seq<string>, last: string)
    ensures Tails(parts + [last]) == Tails(parts) + last[|FirstLine(last)|..]
  {
    hide Tails, FirstLine;
    NoTails();
    TailsFirst(parts + [last]);
    if parts == [] {
      assert [last][1..] == [] && parts + [last] == [last];
    } else {
      TailsLast(parts[1..], last);
      TailsFirst(parts);
      assert (parts + [last])[1..] == parts[1..] + [last] && (parts + [last])[0] == parts[0];
      RegroupText(parts[0][|FirstLine(parts[0])|..], Tails(parts[1..]), last[|FirstLine(last)|..]);
    }
  }

  lemma TailsFirst(parts: seq<string>)
    requires parts != []
    ensures Tails(parts) == parts[0][|FirstLine(parts[0])|..] + Tails(parts[1..])
  {
  }

  lemma RegroupText(a: string, b: string, c: string)
    ensures a + (b + c) == a + b + c
  {
  }

  lemma {:induction false} LineIsItself(line: string)
    requires '\n' !in line
    ensures FirstLine(line) == line
  {
  }

  // ---- starting ----

  /** Appending one written record to any description appends exactly that record to its
      history. */
  lemma AppendRecord(description: string, record: Session)
    requires ValidSession(record)
    ensures var d := description + (Marker() + WriteSession(record));
            && Split(d, Marker()) == Split(description, Marker()) + [WriteSession(record)]
            && Prose(d) == Prose(description)
            && forall history :: ReadRecords(Split(description, Marker())[1..]) == Ok(history) ==>
                 ReadRecords(Split(d, Marker())[1..]) == Ok(history + [record])
  {
    hide Marker, Write, Read, ReadRecords, ReadSession, ValidSession, WriteSession, Split, Join, FirstLine, Tails, Clean;
    var parts, line := Split(description, Marker()), WriteSession(record);
    var extended := parts + [line];
    SessionRoundTrip(record);
    LineIsItself(line);
    JoinSplit(description, Marker());
    JoinAppend(parts, Marker(), line);
    CleanWritten(line);
    SplitJoin(extended, Marker());
    assert extended[1..] == parts[1..] + [line];
    TailsAppend(parts[1..], line);
    forall history | ReadRecords(parts[1..]) == Ok(history)
      ensures ReadRecords(extended[1..]) == Ok(history + [record])
    {
      RecordsAreLines(parts[1..], history);
      RecordsAreLines(extended[1..], history + [record]);
    }
  }

  function StartRecord(key: string, task: Task, at: nat, token: string): Session
    requires task.percentComplete >= 0
  {
    Session(key, token, at, task.status, task.percentComplete, None, None)
  }

  lemma StartedIsValid(key: string, task: Task, at: nat, token: string)
    requires token != "" && 0 <= task.percentComplete <= 99 && Startable(task.status)
    ensures ValidSession(StartRecord(key, task, at, token))
  {
  }

  lemma ClosedIsValid(record: Session, action: Action, at: nat)
    requires ValidSession(record) && action != Start
    ensures ValidSession(Closed(record, action, at))
  {
  }

  /** A planned start puts the task in process and points to it. It is readable exactly when its
      token is new; then the history is the old one
      plus one open record, and the user's text is as before. */
  lemma StartLaw(currentWorkId: Option<string>, task: Task, at: nat, token: string)
    requires PlanWorkAction(Start, currentWorkId, task, at, token).Ok?
    ensures var plan := PlanWorkAction(Start, currentWorkId, task, at, token).value;
            var history := Sessions(task.description).value;
            var record := StartRecord(WriteIdentity(task.ref).value, task, at, token);
            && ValidSession(record)
            && record == Session(WriteIdentity(task.ref).value, token, at, task.status, task.percentComplete, None, None)
            && plan.action == Start && plan.target == task.ref
            && plan.expected.status == "IN-PROCESS" && plan.expected.percentComplete == task.percentComplete
            && currentWorkId == None && plan.nextCurrentWorkId == Some(WriteIdentity(task.ref).value)
            && Prose(plan.expected.description) == Prose(task.description)
            && Sessions(plan.expected.description) ==
                 (if forall i :: 0 <= i < |history| ==> history[i].token != token
                  then Ok(history + [record]) else Err(AmbiguousSessions))
  {
    hide Marker, Write, Read, ValidFields, WriteIdentity;
    var history := Sessions(task.description).value;
    var record := StartRecord(WriteIdentity(task.ref).value, task, at, token);
    StartedIsValid(WriteIdentity(task.ref).value, task, at, token);
    AppendRecord(task.description, record);
    var extended := history + [record];
    assert forall i :: 0 <= i < |history| ==> extended[i] == history[i];
    assert extended[|history|] == record;
    assert AtMostOneOpen(extended);
    if i :| 0 <= i < |history| && history[i].token == token {
      assert extended[i].token == extended[|history|].token;
    } else {
      assert DistinctTokens(extended);
    }
  }

  // ---- closing ----

  /** The line with the open record's token is the line at the open record's place. */
  lemma {:induction false} LineOfIndex(parts: seq<string>, records: seq<Session>, k: nat)
    requires ReadRecords(parts) == Ok(records) && DistinctTokens(records) && k < |records|
    ensures |parts| == |records| && LineOf(parts, records[k].token) == Some(FirstLine(parts[k]))
  {
    hide Read, ReadSession, ValidSession, FirstLine;
    RecordsAreLines(parts, records);
    ReadIsValid(FirstLine(parts[0]));
    if k > 0 {
      RecordsAreLines(parts[1..], records[1..]);
      LineOfIndex(parts[1..], records[1..], k - 1);
    }
  }

  /** A record's line is not the beginning of an earlier record's line. */
  lemma NoEarlierMatch(parts: seq<string>, records: seq<Session>, k: nat, j: nat)
    requires ReadRecords(parts) == Ok(records) && DistinctTokens(records) && j < k < |records|
    ensures |parts| == |records| && !(FirstLine(parts[k]) <= FirstLine(parts[j]))
  {
    RecordsAreLines(parts, records);
    var l, m := FirstLine(parts[k]), FirstLine(parts[j]);
    assert ReadSession(l) == Ok(records[k]) && ReadSession(m) == Ok(records[j]);
    ReadIsValid(l);
    ReadIsValid(m);
    assert records[j].token != records[k].token;
    assert Read(l) != Read(m);
    if l <= m { ReadPrefix(l, m); }
  }

  /** Replacing the line of record k rewrites exactly that record. */
  lemma RewriteRecord(description: string, records: seq<Session>, k: nat, record: Session)
    requires ReadRecords(Split(description, Marker())[1..]) == Ok(records) && DistinctTokens(records)
    requires k < |records| && ValidSession(record)
    ensures |Split(description, Marker())| == |records| + 1
    ensures var parts := Split(description, Marker());
            var line := FirstLine(parts[k + 1]);
            var d := ReplaceLiteral(description, Marker() + line, Marker() + WriteSession(record));
            && LineOf(parts[1..], records[k].token) == Some(line)
            && Split(d, Marker()) == parts[k + 1 := WriteSession(record) + parts[k + 1][|line|..]]
            && ReadRecords(Split(d, Marker())[1..]) == Ok(records[k := record])
            && Prose(d) == Prose(description)
  {
    hide Marker, Write, Read, ReadRecords, ReadSession, ValidSession, WriteSession, Split, Join, FirstLine, Tails, Clean,
         ReplaceLiteral, LineOf;
    var parts := Split(description, Marker());
    RecordsAreLines(parts[1..], records);
    var line, written := FirstLine(parts[k + 1]), WriteSession(record);
    var rest := parts[k + 1][|line|..];
    var rewritten := parts[k + 1 := written + rest];
    JoinSplit(description, Marker());
    SessionRoundTrip(record);
    LineOfIndex(parts[1..], records, k);
    forall j | 1 <= j < k + 1 ensures !(line <= FirstLine(parts[j])) {
      NoEarlierMatch(parts[1..], records, k, j - 1);
    }
    ReplaceLine(parts, Marker(), line, written, k + 1);
    CleanTail(parts[k + 1], |line|);
    CleanLine(written, rest);
    SplitJoin(rewritten, Marker());
    LineIsItself(written);
    FirstLineAppend(written, rest);
    assert (written + rest)[|written|..] == rest;
    TailsUpdate(parts[1..], k, written + rest);
    assert rewritten[1..] == parts[1..][k := written + rest];
    RecordsAreLines(rewritten[1..], records[k := record]);
  }

  /** The first occurrence of a record's marker and line ends where that line ends. */
  lemma LineIsCut(description: string, records: seq<Session>, k: nat)
    requires ReadRecords(Split(description, Marker())[1..]) == Ok(records) && DistinctTokens(records) && k < |records|
    ensures |Split(description, Marker())| == |records| + 1
    ensures var cut := Cut(description, Marker() + FirstLine(Split(description, Marker())[k + 1]));
            && cut.Some? && LineEnd(cut.value.1)
            && (LineEnd(description) ==> LineEnd(cut.value.0))
  {
    hide Marker, ReadRecords, ReadSession, Split, Join, FirstLine, Clean, Cut;
    var parts := Split(description, Marker());
    RecordsAreLines(parts[1..], records);
    var line := FirstLine(parts[k + 1]);
    JoinSplit(description, Marker());
    forall j | 1 <= j < k + 1 ensures !(line <= FirstLine(parts[j])) {
      NoEarlierMatch(parts[1..], records, k, j - 1);
    }
    CutLine(parts, Marker(), line, k + 1);
    CutSound(description, Marker() + line);
  }

  /** If the line that replaces a record's line cannot be read as a session, the history is lost. */
  lemma UnreadableLine(description: string, records: seq<Session>, k: nat, l: string, w: string)
    requires ReadRecords(Split(description, Marker())[1..]) == Ok(records) && DistinctTokens(records) && k < |records|
    requires '\n' !in l && LineEnd(w) && ReadSession(l).Err?
    ensures |Split(description, Marker())| == |records| + 1
    ensures var line := FirstLine(Split(description, Marker())[k + 1]);
            Sessions(ReplaceLiteral(description, Marker() + line, Marker() + (l + w))).Err?
  {
    hide Marker, ReadRecords, ReadSession, Split, Join, FirstLine, Clean, ReplaceLiteral;
    var parts := Split(description, Marker());
    RecordsAreLines(parts[1..], records);
    var line := FirstLine(parts[k + 1]);
    var rest := parts[k + 1][|line|..];
    var changed := parts[k + 1 := (l + w) + rest];
    JoinSplit(description, Marker());
    forall j | 1 <= j < k + 1 ensures !(line <= FirstLine(parts[j])) {
      NoEarlierMatch(parts[1..], records, k, j - 1);
    }
    ReplaceLine(parts, Marker(), line, l + w, k + 1);
    JoinAt(changed, Marker(), k + 1);
    assert changed[..k + 1] == parts[..k + 1];
    var more := JoinFrom(changed[k + 1..], Marker());
    SplitAfter(parts[..k + 1], Marker(), Join(changed[k + 1..], Marker()));
    assert ((l + w) + rest) + more == l + (w + (rest + more));
    FirstPartLine(l, w + (rest + more), Marker());
    LineLost(Join(changed, Marker()), k, l);
  }

  /** What follows the first part of a join. */
  lemma JoinFrom(parts: seq<string>, sep: string) returns (more: string)
    requires |parts| >= 1 && StartsLine(sep)
    ensures Join(parts, sep) == parts[0] + more && LineEnd(more)
  {
    more := if |parts| == 1 then "" else sep + Join(parts[1..], sep);
    assert parts[0] + "" == parts[0];
  }

  lemma LineLost(d: string, k: nat, l: string)
    requires k + 1 < |Split(d, Marker())| && FirstLine(Split(d, Marker())[k + 1]) == l && ReadSession(l).Err?
    ensures Sessions(d).Err?
  {
    hide Marker, ReadRecords, ReadSession, Split, FirstLine;
    var parts := Split(d, Marker())[1..];
    assert parts[k] == Split(d, Marker())[k + 1];
    if ReadRecords(parts).Ok? {
      RecordsAreLines(parts, ReadRecords(parts).value);
    }
  }

  /** Replacing the line of record k by the closed record. */
  lemma CloseText(description: string, history: seq<Session>, k: nat, closed: Session)
    requires ReadRecords(Split(description, Marker())[1..]) == Ok(history) && DistinctTokens(history)
    requires k < |history| && AtMostOneOpen(history[k := closed])
    requires ValidSession(closed) && '$' !in closed.identity && closed.token == history[k].token
    requires Pairs(closed.token, '`') ==> LineEnd(description)
    ensures |Split(description, Marker())| == |history| + 1
    ensures var line := FirstLine(Split(description, Marker())[k + 1]);
            var d := Replace(description, Marker() + line, Marker() + WriteSession(closed));
            var stored := history[k := closed.(token := Collapse(closed.token))];
            && (Sessions(d) == Ok(history[k := closed]) <==> Literal(closed.token))
            && (InsertsNothing(closed.token) ==>
                  Sessions(d) == (if DistinctTokens(stored) then Ok(stored) else Err(AmbiguousSessions)) &&
                  Prose(d) == Prose(description))
  {
    hide Marker, Write, Read, ReadRecords, ValidSession, WriteSession, Split, Replace, ReplaceLiteral, LineOf,
         FirstLine, Prose, Sessions, Pairs, Collapse, Cut, Literal;
    var t := closed.token;
    LineIsCut(description, history, k);
    var pattern := Marker() + FirstLine(Split(description, Marker())[k + 1]);
    var (b, a) := Cut(description, pattern).value;
    var line, rest := ReplaceStores(description, pattern, closed);
    CollapseLaw(t);
    TokenNotEmpty(closed);
    if Literal(t) {
      LiteralHasNoPairs(t, '&');
      LiteralHasNoPairs(t, '`');
      LiteralHasNoPairs(t, '\'');
    }
    if Breaks(t, b, a) {
      UnreadableLine(description, history, k, line, ['\n'] + rest);
    } else {
      var stored := closed.(token := Collapse(t));
      assert history[k := stored][k] == stored && history[k := closed][k] == closed;
      if Collapse(t) == "" {
        EmptyTokenUnreadable(stored);
        assert WriteSession(stored) + "" == WriteSession(stored);
        UnreadableLine(description, history, k, WriteSession(stored), "");
      } else {
        CollapsedIsValid(closed);
        RewriteRecord(description, history, k, stored);
        SameEnds(history, k, closed, stored);
        GoodHistory(Replace(description, pattern, Marker() + WriteSession(closed)), history[k := stored]);
      }
    }
  }

  lemma SameEnds(history: seq<Session>, k: nat, s: Session, t: Session)
    requires k < |history| && s.end == t.end
    ensures AtMostOneOpen(history[k := s]) ==> AtMostOneOpen(history[k := t])
  {
    var a, b := history[k := s], history[k := t];
    forall i | 0 <= i < |history| ensures a[i].end == b[i].end {}
  }

  /** No pair of the token stands for another text. */
  predicate InsertsNothing(token: string) {
    !Pairs(token, '&') && !Pairs(token, '`') && !Pairs(token, '\'')
  }

  lemma TokenNotEmpty(s: Session)
    requires ValidSession(s)
    ensures s.token != ""
  {
  }

  lemma EmptyTokenUnreadable(s: Session)
    requires s.token == ""
    ensures ReadSession(WriteSession(s)).Err? && '\n' !in WriteSession(s)
  {
    hide Read, WriteSession;
    WrittenReadsBack(s);
  }

  /** A planned stop, completion or cancellation releases the pointer and closes exactly the open
      record, if and only if the token of that record has no dollar sign before a special character,
      which `replace` would interpret. Where no pair stands for another text, the user's own text is
      unchanged in any case, and a doubled dollar sign in the token is stored as one. */
  lemma CloseLaw(action: Action, currentWorkId: Option<string>, task: Task, at: nat, token: string)
    requires action != Start && PlanWorkAction(action, currentWorkId, task, at, token).Ok?
    requires Pairs(OpenToken(task), '`') ==> LineEnd(task.description)
    ensures var plan := PlanWorkAction(action, currentWorkId, task, at, token).value;
            var history := Sessions(task.description).value;
            var k := OpenIndex(history).value;
            var closed := Closed(history[k], action, at);
            var stored := history[k := closed.(token := Collapse(closed.token))];
            && (Sessions(plan.expected.description) == Ok(history[k := closed]) <==> Literal(OpenToken(task)))
            && (InsertsNothing(OpenToken(task)) ==>
                  Sessions(plan.expected.description) ==
                    (if DistinctTokens(stored) then Ok(stored) else Err(AmbiguousSessions)) &&
                  Prose(plan.expected.description) == Prose(task.description))
            && plan.nextCurrentWorkId == None && currentWorkId == Some(WriteIdentity(task.ref).value)
  {
    hide Marker, Write, Read, ReadRecords, ValidSession, WriteSession, WriteIdentity, Split, Replace, LineOf,
         FirstLine, Prose, Sessions, Pairs, Collapse, Literal, InsertsNothing;
    var history := Sessions(task.description).value;
    var k := OpenIndex(history).value;
    HistoryIsGood(task.description, history);
    LineAtIndex(task.description, history, k);
    ClosedIsValid(history[k], action, at);
    IdentityPlain(task.ref);
    CloseText(task.description, history, k, Closed(history[k], action, at));
  }

  /** What a planned closing makes of the task and of the open record, action by action. */
  lemma CloseOutcome(action: Action, currentWorkId: Option<string>, task: Task, at: nat, token: string)
    requires action != Start && PlanWorkAction(action, currentWorkId, task, at, token).Ok?
    ensures var plan := PlanWorkAction(action, currentWorkId, task, at, token).value;
            var open := Sessions(task.description).value[OpenIndex(Sessions(task.description).value).value];
            && plan.action == action && plan.target == task.ref
            && (action == Stop ==>
                  plan.expected.status == open.beforeStatus && plan.expected.percentComplete == open.beforePercent)
            && (action == Complete ==> plan.expected.status == "COMPLETED" && plan.expected.percentComplete == 100)
            && (action == Cancel ==>
                  plan.expected.status == "CANCELLED" && plan.expected.percentComplete == task.percentComplete)
    ensures var plan := PlanWorkAction(action, currentWorkId, task, at, token).value;
            var history := Sessions(task.description).value;
            var open := history[OpenIndex(history).value];
            var result := if action == Stop then "stop" else if action == Complete then "complete" else "cancel";
            var closed := Session(open.identity, open.token, open.start, open.beforeStatus, open.beforePercent,
                                  Some(at), Some(result));
            Literal(OpenToken(task)) ==>
              Sessions(plan.expected.description) == Ok(history[OpenIndex(history).value := closed])
  {
    hide Marker, Write, Read, ReadRecords, WriteSession, WriteIdentity, Split, Replace, LineOf, FirstLine, Prose, Sessions,
         Pairs, Collapse, Literal;
    if Literal(OpenToken(task)) {
      LiteralInsertsNothing(OpenToken(task));
      CloseLaw(action, currentWorkId, task, at, token);
    }
  }

  /** Exactly when an action can be planned. */
  lemma PlanLaw(action: Action, currentWorkId: Option<string>, task: Task, at: nat, token: string)
    ensures PlanWorkAction(action, currentWorkId, task, at, token).Ok? <==>
              && task.ref.calendarId != "" && task.ref.id != "" && Sessions(task.description).Ok?
              && task.status != "COMPLETED" && task.status != "CANCELLED"
              && var open := OpenIndex(Sessions(task.description).value);
                 if action == Start then
                   && currentWorkId == None && open == None && token != "" && 0 <= task.percentComplete <= 99
                   && task.status in ["", "NEEDS-ACTION", "IN-PROCESS"]
                 else
                   && currentWorkId == Some(WriteIdentity(task.ref).value) && open.Some?
                   && var session := Sessions(task.description).value[open.value];
                      session.identity == WriteIdentity(task.ref).value && session.start <= at
  {
    hide Marker, ReadRecords, Split, WriteSession, LineOf, Replace;
    if Sessions(task.description).Ok? {
      var history := Sessions(task.description).value;
      HistoryIsGood(task.description, history);
      if OpenIndex(history).Some? { LineAtIndex(task.description, history, OpenIndex(history).value); }
    }
  }

  /** The line the plan replaces is the one at the open record's place. */
  lemma LineAtIndex(description: string, history: seq<Session>, k: nat)
    requires ReadRecords(Split(description, Marker())[1..]) == Ok(history) && DistinctTokens(history) && k < |history|
    ensures |Split(description, Marker())| == |history| + 1
    ensures LineOf(Split(description, Marker())[1..], history[k].token) == Some(FirstLine(Split(description, Marker())[k + 1]))
  {
    hide Marker, ReadRecords, Split, LineOf, FirstLine;
    LineOfIndex(Split(description, Marker())[1..], history, k);
  }

  /** The token of the open session. */
  function OpenToken(task: Task): string
    requires Sessions(task.description).Ok? && OpenIndex(Sessions(task.description).value).Some?
  {
    Sessions(task.description).value[OpenIndex(Sessions(task.description).value).value].token
  }

  lemma CollapsedIsValid(record: Session)
    requires ValidSession(record) && Collapse(record.token) != ""
    ensures ValidSession(record.(token := Collapse(record.token)))
  {
  }

  lemma HistoryIsGood(description: string, history: seq<Session>)
    requires Sessions(description) == Ok(history)
    ensures ReadRecords(Split(description, Marker())[1..]) == Ok(history)
    ensures |Split(description, Marker())| == |history| + 1
    ensures DistinctTokens(history) && AtMostOneOpen(history)
    ensures forall i :: 0 <= i < |history| ==> ValidSession(history[i])
  {
    hide Marker, ReadRecords, ValidSession;
    var parts := Split(description, Marker())[1..];
    RecordsAreLines(parts, history);
    forall i | 0 <= i < |history| ensures ValidSession(history[i]) {
      ReadIsValid(FirstLine(parts[i]));
    }
  }

  lemma GoodHistory(description: string, history: seq<Session>)
    requires ReadRecords(Split(description, Marker())[1..]) == Ok(history) && AtMostOneOpen(history)
    ensures Sessions(description) == if DistinctTokens(history) then Ok(history) else Err(AmbiguousSessions)
  {
  }

  /** The plan for closing an open session of the current task never fails. */
  lemma ClosePossible(action: Action, task: Task, at: nat, token: string)
    requires action != Start && WriteIdentity(task.ref).Ok? && !Finished(task.status)
    requires Sessions(task.description).Ok? && OpenIndex(Sessions(task.description).value).Some?
    requires var open := Sessions(task.description).value[OpenIndex(Sessions(task.description).value).value];
             open.identity == WriteIdentity(task.ref).value && open.start <= at
    ensures PlanWorkAction(action, Some(WriteIdentity(task.ref).value), task, at, token).Ok?
  {
    hide Marker, Write, Read, ValidFields, WriteIdentity;
    var history := Sessions(task.description).value;
    var parts := Split(task.description, Marker())[1..];
    RecordsAreLines(parts, history);
    LineOfIndex(parts, history, OpenIndex(history).value);
  }

  // ---- start, then stop ----

  /** Stopping what was just started restores status, percentage and pointer, and leaves exactly
      one closed record behind the unchanged description. */
  lemma StartStopLaw(task: Task, at: nat, token: string, later: nat)
    requires PlanWorkAction(Start, None, task, at, token).Ok?
    requires forall i :: 0 <= i < |Sessions(task.description).value| ==> Sessions(task.description).value[i].token != token
    requires Literal(token) && at <= later
    ensures var started := PlanWorkAction(Start, None, task, at, token).value;
            var working := Written(started, task);
            var stop := PlanWorkAction(Stop, started.nextCurrentWorkId, working, later, token);
            var closed := Closed(StartRecord(WriteIdentity(task.ref).value, task, at, token), Stop, later);
            && Verified(started, working)
            && stop.Ok?
            && stop.value.expected.status == task.status
            && stop.value.expected.percentComplete == task.percentComplete
            && stop.value.expected.description == task.description + (Marker() + WriteSession(closed))
            && stop.value.nextCurrentWorkId == None
            && Sessions(stop.value.expected.description) == Ok(Sessions(task.description).value + [closed])
            && Prose(stop.value.expected.description) == Prose(task.description)
  {
    hide Marker, Write, Read, ReadRecords, ValidSession, WriteSession, WriteIdentity, Split, Replace, LineOf, FirstLine,
         Prose, Sessions, Pairs, Collapse, Literal, InsertsNothing;
    LiteralInsertsNothing(token);
    var started := PlanWorkAction(Start, None, task, at, token).value;
    var working := Written(started, task);
    var history := Sessions(task.description).value;
    var record := StartRecord(WriteIdentity(task.ref).value, task, at, token);
    StartLaw(None, task, at, token);
    OpenLast(history, record);
    ClosePossible(Stop, working, later, token);
    CloseLaw(Stop, started.nextCurrentWorkId, working, later, token);
    IdentityPlain(task.ref);
    RewriteLast(task.description, history, record, Stop, later);
    assert (history + [record])[|history| := Closed(record, Stop, later)] == history + [Closed(record, Stop, later)];
  }

  /** A task without text, started with a token of two dollar signs and stopped: the stored session
      has a token of one. */
  lemma DoubledDollarIsLost(ref: Identity)
    requires WriteIdentity(ref).Ok?
    ensures var task := Task(ref, "", 0, "");
            var started := PlanWorkAction(Start, None, task, 0, ['$', '$']);
            started.Ok? &&
            var stop := PlanWorkAction(Stop, started.value.nextCurrentWorkId, Written(started.value, task), 0, ['$', '$']);
            stop.Ok? &&
            Sessions(stop.value.expected.description) ==
              Ok([Closed(StartRecord(WriteIdentity(ref).value, task, 0, ['$']), Stop, 0)])
  {
    hide Marker, Write, Read, ReadRecords, ReadSession, ValidSession, WriteSession, WriteIdentity, Replace, LineOf,
         FirstLine, Prose, Literal, Pairs, Collapse;
    var task, t := Task(ref, "", 0, ""), ['$', '$'];
    NoSessions();
    StartLaw(None, task, 0, t);
    var started := PlanWorkAction(Start, None, task, 0, t).value;
    var working := Written(started, task);
    var record := StartRecord(WriteIdentity(ref).value, task, 0, t);
    assert [] + [record] == [record];
    OpenLast([], record);
    ClosePossible(Stop, working, 0, t);
    TwoDollars();
    CloseLaw(Stop, started.nextCurrentWorkId, working, 0, t);
    assert [record][0 := Closed(record, Stop, 0).(token := ['$'])] == [Closed(record, Stop, 0).(token := ['$'])];
  }

  lemma NoSessions()
    ensures Sessions("") == Ok([])
  {
  }

  lemma TwoDollars()
    ensures Collapse(['$', '$']) == ['$'] && InsertsNothing(['$', '$'])
  {
  }

  lemma LiteralInsertsNothing(token: string)
    requires Literal(token)
    ensures InsertsNothing(token)
  {
    LiteralHasNoPairs(token, '&');
    LiteralHasNoPairs(token, '`');
    LiteralHasNoPairs(token, '\'');
  }

  /** Closing the last record rewrites only the end of the description. */
  lemma RewriteLast(description: string, history: seq<Session>, record: Session, action: Action, at: nat)
    requires Sessions(description) == Ok(history) && ValidSession(record) && action != Start
    requires forall i :: 0 <= i < |history| ==> history[i].token != record.token
    requires '$' !in record.identity && Literal(record.token)
    ensures var d := description + (Marker() + WriteSession(record));
            var line := LineOf(Split(d, Marker())[1..], record.token);
            var closed := WriteSession(Closed(record, action, at));
            && line.Some?
            && Replace(d, Marker() + line.value, Marker() + closed) == description + (Marker() + closed)
  {
    hide Marker, Write, Read, ReadRecords, ValidSession, WriteSession, Split, Replace, ReplaceLiteral, LineOf,
         FirstLine, Prose, OpenIndex, Collapse, Pairs, Literal, Cut;
    LiteralInsertsNothing(record.token);
    var closed := Closed(record, action, at);
    var d := description + (Marker() + WriteSession(record));
    var parts, now := Split(description, Marker()), history + [record];
    AppendRecord(description, record);
    ClosedIsValid(record, action, at);
    CollapseLaw(record.token);
    assert closed.(token := Collapse(closed.token)) == closed;
    SessionRoundTrip(record);
    LineIsItself(WriteSession(record));
    HistoryIsGood(description, history);
    RewriteRecord(d, now, |history|, closed);
    LineIsCut(d, now, |history|);
    var _, _ := ReplaceStores(d, Marker() + WriteSession(record), closed);
    AppendRecord(description, closed);
    var e := Replace(d, Marker() + WriteSession(record), Marker() + WriteSession(closed));
    assert Split(d, Marker())[|history| + 1] == WriteSession(record);
    ReplaceLastPart(parts, WriteSession(record), WriteSession(closed));
    SameParts(e, description + (Marker() + WriteSession(closed)));
  }

  lemma ReplaceLastPart(parts: seq<string>, last: string, line: string)
    ensures (parts + [last])[|parts| := line + last[|last|..]] == parts + [line]
  {
    assert line + last[|last|..] == line;
  }

  lemma SameParts(d: string, e: string)
    requires Split(d, Marker()) == Split(e, Marker())
    ensures d == e
  {
    JoinSplit(d, Marker());
    JoinSplit(e, Marker());
  }

  lemma {:induction false} OpenLast(history: seq<Session>, record: Session)
    requires OpenIndex(history).None? && record.end.None?
    ensures OpenIndex(history + [record]) == Some(|history|)
  {
    if history != [] {
      OpenLast(history[1..], record);
      assert (history + [record])[1..] == history[1..] + [record];
    }
  }
}
