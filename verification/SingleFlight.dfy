/** Coalescing of overlapping identical startup reads: the first caller for a key owns the flight
    and reads; callers that arrive before it has left the table wait for its result. */
module SingleFlight {
  import opened Prelude

  datatype Key = Key(days: int, kind: Option<string>)

  /** What a read produced: a snapshot or an exception. */
  datatype Outcome = Snapshot(value: int) | Exception(error: int)

  /** Where a caller is. An owner first settles its future and then, under the lock, leaves the
      table; other callers may run in between. */
  datatype Phase =
    | Reading(key: Key, flight: nat)
    | Settling(key: Key, flight: nat, outcome: Outcome)
    | Waiting(key: Key, flight: nat)
    | Returned(key: Key, flight: nat, outcome: Outcome)

  /** `table` is the shared flight table, `futures` every future ever made, `callers` every call. */
  datatype System = System(table: map<Key, nat>, futures: map<nat, Option<Outcome>>, callers: map<nat, Phase>)

  datatype Event = Enter(caller: nat, key: Key) | Finish(caller: nat, outcome: Outcome) | Leave(caller: nat) | Resume(caller: nat)

  function FreshFlight(futures: map<nat, Option<Outcome>>): nat {
    |futures|
  }

  /** What one atomic section of a call does. */
  function Step(s: System, e: Event): System {
    match e
    case Enter(c, key) =>
      if c in s.callers then s
      else if key in s.table then s.(callers := s.callers[c := Waiting(key, s.table[key])])
      else
        var f := FreshFlight(s.futures);
        System(s.table[key := f], s.futures[f := None], s.callers[c := Reading(key, f)])
    case Finish(c, outcome) =>
      if c in s.callers && s.callers[c].Reading? then
        s.(futures := s.futures[s.callers[c].flight := Some(outcome)],
           callers := s.callers[c := Settling(s.callers[c].key, s.callers[c].flight, outcome)])
      else s
    case Leave(c) =>
      if c in s.callers && s.callers[c].Settling? then
        var p := s.callers[c];
        s.(table := if p.key in s.table && s.table[p.key] == p.flight then s.table - {p.key} else s.table,
           callers := s.callers[c := Returned(p.key, p.flight, p.outcome)])
      else s
    case Resume(c) =>
      if c in s.callers && s.callers[c].Waiting? && s.callers[c].flight in s.futures && s.futures[s.callers[c].flight].Some? then
        s.(callers := s.callers[c := Returned(s.callers[c].key, s.callers[c].flight, s.futures[s.callers[c].flight].value)])
      else s
  }

  function Run(events: seq<Event>): System {
    if events == [] then System(map[], map[], map[]) else Step(Run(events[..|events| - 1]), events[|events| - 1])
  }

  /** The service: the flight table and its futures, and how far each call has come. Each method is
      one atomic section of a call. */
  class StartupService {
    var table: map<Key, nat>
    var futures: map<nat, Option<Outcome>>
    var callers: map<nat, Phase>

    constructor ()
      ensures State() == Run([])
    {
      table, futures, callers := map[], map[], map[];
    }

    function State(): System
      reads this
    {
      System(table, futures, callers)
    }

    /** Under the lock: join the flight of a key, or become its owner. */
    method Begin(caller: nat, key: Key) returns (owner: bool)
      requires caller !in callers
      modifies this
      ensures State() == Step(old(State()), Enter(caller, key))
      ensures owner <==> callers[caller].Reading?
    {
      owner := key !in table;
      if owner {
        var flight := FreshFlight(futures);
        futures := futures[flight := None];
        table := table[key := flight];
      }
      callers := callers[caller := if owner then Reading(key, table[key]) else Waiting(key, table[key])];
    }

    /** The read returned or raised: settle the future. Only an unsettled future may be settled. */
    method Settle(caller: nat, outcome: Outcome)
      requires Inv(State()) && caller in callers && callers[caller].Reading?
      modifies this
      ensures State() == Step(old(State()), Finish(caller, outcome))
      ensures old(futures)[old(callers)[caller].flight].None?
    {
      assert GoodCall(State(), callers[caller]);
      var p := callers[caller];
      futures := futures[p.flight := Some(outcome)];
      callers := callers[caller := Settling(p.key, p.flight, outcome)];
    }

    /** Under the lock: take the own entry out of the table, if it is still there. */
    method Depart(caller: nat)
      requires caller in callers && callers[caller].Settling?
      modifies this
      ensures State() == Step(old(State()), Leave(caller))
    {
      var p := callers[caller];
      if p.key in table && table[p.key] == p.flight {
        table := table - {p.key};
      }
      callers := callers[caller := Returned(p.key, p.flight, p.outcome)];
    }

    /** A follower gets the result once the future is settled. */
    method Await(caller: nat) returns (settled: bool)
      requires Inv(State()) && caller in callers && callers[caller].Waiting?
      modifies this
      ensures State() == Step(old(State()), Resume(caller))
      ensures settled <==> old(futures)[old(callers)[caller].flight].Some?
    {
      assert GoodCall(State(), callers[caller]);
      var p := callers[caller];
      settled := futures[p.flight].Some?;
      if settled {
        callers := callers[caller := Returned(p.key, p.flight, futures[p.flight].value)];
      }
    }
  }

  predicate Owns(p: Phase) {
    p.Reading? || p.Settling?
  }

  /** Flight numbers are issued in order. */
  ghost predicate Numbered(futures: map<nat, Option<Outcome>>) {
    forall f: nat :: f in futures <==> f < |futures|
  }

  /** An owner's entry is in the table under its own flight, unsettled while it reads; a waiter's
      flight is settled or still has its entry; whoever returned got what the future holds. */
  predicate GoodCall(s: System, p: Phase) {
    && p.flight in s.futures
    && match p
       case Reading(key, f) => key in s.table && s.table[key] == f && s.futures[f].None?
       case Settling(key, f, o) => key in s.table && s.table[key] == f && s.futures[f] == Some(o)
       case Waiting(key, f) => s.futures[f].None? ==> key in s.table && s.table[key] == f
       case Returned(key, f, o) => s.futures[f] == Some(o)
  }

  ghost predicate GoodCalls(s: System) {
    forall c :: c in s.callers ==> GoodCall(s, s.callers[c])
  }

  /** Two owners never share a flight. */
  ghost predicate OneOwner(s: System) {
    forall c, d ::
      (c in s.callers && d in s.callers && Owns(s.callers[c]) && Owns(s.callers[d]) &&
       s.callers[c].flight == s.callers[d].flight) ==> c == d
  }

  ghost predicate AllOwned(s: System) {
    forall key :: key in s.table ==> HasOwner(s, key)
  }

  ghost predicate Inv(s: System) {
    Numbered(s.futures) && GoodCalls(s) && OneOwner(s) && AllOwned(s)
  }

  /** Some owner is still at work on the key's flight. */
  ghost predicate HasOwner(s: System, key: Key)
    requires key in s.table
  {
    exists c :: c in s.callers && OwnsFlight(s.callers[c], key, s.table[key])
  }

  predicate OwnsFlight(p: Phase, key: Key, flight: nat) {
    Owns(p) && p.key == key && p.flight == flight
  }

  predicate Settled(s: System, f: nat) {
    f in s.futures && s.futures[f].Some?
  }

  /** Owners that another caller's step does not touch are still owners. */
  lemma OwnersStay(s: System, t: System, c: nat)
    requires AllOwned(s)
    requires forall d :: d in s.callers && d != c ==> d in t.callers && t.callers[d] == s.callers[d]
    requires forall key :: key in t.table ==>
               (key in s.table && t.table[key] == s.table[key] &&
                (c in s.callers && OwnsFlight(s.callers[c], key, s.table[key]) ==>
                   c in t.callers && OwnsFlight(t.callers[c], key, t.table[key]))) ||
               (c in t.callers && OwnsFlight(t.callers[c], key, t.table[key]))
    ensures AllOwned(t)
  {
  }

  lemma EnterKeepsInv(s: System, c: nat, key: Key)
    requires Inv(s)
    ensures Inv(Step(s, Enter(c, key)))
  {
    hide HasOwner, AllOwned, GoodCall;
    OwnersStay(s, Step(s, Enter(c, key)), c);
    if c !in s.callers {
      if key in s.table { JoinKeepsCalls(s, c, key); } else { OwnKeepsCalls(s, c, key); }
    }
  }

  lemma JoinKeepsCalls(s: System, c: nat, key: Key)
    requires Inv(s) && c !in s.callers && key in s.table
    ensures GoodCalls(Step(s, Enter(c, key))) && OneOwner(Step(s, Enter(c, key)))
  {
  }

  lemma OwnKeepsCalls(s: System, c: nat, key: Key)
    requires Inv(s) && c !in s.callers && key !in s.table
    ensures var t := Step(s, Enter(c, key)); Numbered(t.futures) && GoodCalls(t) && OneOwner(t)
  {
    hide HasOwner, AllOwned;
    var t, f := Step(s, Enter(c, key)), FreshFlight(s.futures);
    assert f !in s.futures && |t.futures| == |s.futures| + 1;
    forall d | d in s.callers ensures s.callers[d].flight != f && GoodCall(t, s.callers[d]) {
      assert GoodCall(s, s.callers[d]);
    }
    assert GoodCall(t, t.callers[c]);
    hide GoodCall;
  }

  lemma FinishKeepsInv(s: System, c: nat, outcome: Outcome)
    requires Inv(s)
    ensures Inv(Step(s, Finish(c, outcome)))
  {
    hide HasOwner, AllOwned, GoodCalls, OneOwner, Numbered;
    if c in s.callers && s.callers[c].Reading? {
      OwnersStay(s, Step(s, Finish(c, outcome)), c);
      FinishKeepsCalls(s, c, outcome);
    }
  }

  lemma FinishKeepsCalls(s: System, c: nat, outcome: Outcome)
    requires Numbered(s.futures) && GoodCalls(s) && OneOwner(s) && c in s.callers && s.callers[c].Reading?
    ensures var t := Step(s, Finish(c, outcome)); Numbered(t.futures) && GoodCalls(t) && OneOwner(t)
  {
    var t := Step(s, Finish(c, outcome));
    assert GoodCall(s, s.callers[c]);
    assert t.futures.Keys == s.futures.Keys;
    assert |t.futures| == |t.futures.Keys| == |s.futures|;
    forall d | d in t.callers ensures GoodCall(t, t.callers[d]) {
      assert GoodCall(s, s.callers[d]);
    }
  }

  lemma LeaveKeepsInv(s: System, c: nat)
    requires Inv(s)
    ensures Inv(Step(s, Leave(c)))
  {
    hide HasOwner, AllOwned, Numbered;
    if c in s.callers && s.callers[c].Settling? {
      assert GoodCall(s, s.callers[c]);
      OwnersStay(s, Step(s, Leave(c)), c);
      LeaveKeepsCalls(s, c);
    }
  }

  lemma LeaveKeepsCalls(s: System, c: nat)
    requires GoodCalls(s) && OneOwner(s) && c in s.callers && s.callers[c].Settling?
    ensures GoodCalls(Step(s, Leave(c))) && OneOwner(Step(s, Leave(c)))
  {
  }

  lemma ResumeKeepsInv(s: System, c: nat)
    requires Inv(s)
    ensures Inv(Step(s, Resume(c)))
  {
    hide HasOwner, AllOwned, GoodCalls, OneOwner, Numbered;
    OwnersStay(s, Step(s, Resume(c)), c);
    ResumeKeepsCalls(s, c);
  }

  lemma ResumeKeepsCalls(s: System, c: nat)
    requires GoodCalls(s) && OneOwner(s)
    ensures GoodCalls(Step(s, Resume(c))) && OneOwner(Step(s, Resume(c)))
  {
  }

  lemma {:induction false} RunKeepsInv(events: seq<Event>)
    ensures Inv(Run(events))
  {
    if events != [] {
      var s := Run(events[..|events| - 1]);
      RunKeepsInv(events[..|events| - 1]);
      match events[|events| - 1]
      case Enter(c, key) => EnterKeepsInv(s, c, key);
      case Finish(c, outcome) => FinishKeepsInv(s, c, outcome);
      case Leave(c) => LeaveKeepsInv(s, c);
      case Resume(c) => ResumeKeepsInv(s, c);
    }
  }

  /** At most one live read per key, in every interleaving. */
  lemma OneReadPerKey(events: seq<Event>, c: nat, d: nat)
    requires var s := Run(events);
             c in s.callers && d in s.callers && Owns(s.callers[c]) && Owns(s.callers[d]) && s.callers[c].key == s.callers[d].key
    ensures c == d
  {
    RunKeepsInv(events);
    var s := Run(events);
    assert GoodCall(s, s.callers[c]) && GoodCall(s, s.callers[d]);
  }

  /** Everyone who returned from a flight got the same result or exception, namely the one its
      owner produced. */
  lemma SameResult(events: seq<Event>, c: nat, d: nat)
    requires var s := Run(events);
             c in s.callers && d in s.callers && s.callers[c].flight == s.callers[d].flight &&
             s.callers[c].Returned? && (s.callers[d].Returned? || s.callers[d].Settling?)
    ensures Run(events).callers[c].outcome == Run(events).callers[d].outcome
  {
    RunKeepsInv(events);
    var s := Run(events);
    assert GoodCall(s, s.callers[c]) && GoodCall(s, s.callers[d]);
  }

  /** A future settles at most once: no later event changes it, and an owner about to settle one
      finds it unsettled. */
  lemma SettledForEver(events: seq<Event>, e: Event, f: nat)
    requires f in Run(events).futures
    ensures var s := Run(events);
            && f in Step(s, e).futures
            && (Settled(s, f) ==> Step(s, e).futures[f] == s.futures[f])
            && (e.Finish? && e.caller in s.callers && s.callers[e.caller].Reading? ==> !Settled(s, s.callers[e.caller].flight))
  {
    RunKeepsInv(events);
    var s := Run(events);
    if e.Finish? && e.caller in s.callers { assert GoodCall(s, s.callers[e.caller]); }
    if e.Enter? { assert FreshFlight(s.futures) !in s.futures; }
  }

  /** An owner that leaves removes its own entry and no other, and nobody is left waiting for a
      flight without owner; when all owners have left, the table is empty. */
  lemma TableEmptiesItself(events: seq<Event>)
    ensures var s := Run(events);
            && (forall c :: c in s.callers && s.callers[c].Settling? ==>
                  Step(s, Leave(c)).table == s.table - {s.callers[c].key})
            && (forall c :: c in s.callers && s.callers[c].Waiting? && !Settled(s, s.callers[c].flight) ==>
                  exists d :: d in s.callers && s.callers[d].Reading? && s.callers[d].flight == s.callers[c].flight)
            && ((forall c :: c in s.callers ==> !Owns(s.callers[c])) ==> s.table == map[])
  {
    RunKeepsInv(events);
    var s := Run(events);
    forall c | c in s.callers ensures GoodCall(s, s.callers[c]) {}
    forall c | c in s.callers && s.callers[c].Waiting? && !Settled(s, s.callers[c].flight)
      ensures exists d :: d in s.callers && s.callers[d].Reading? && s.callers[d].flight == s.callers[c].flight
    {
      var k := s.callers[c].key;
      assert GoodCall(s, s.callers[c]);
      var d :| d in s.callers && OwnsFlight(s.callers[d], k, s.table[k]);
      assert GoodCall(s, s.callers[d]);
      assert s.callers[d].Reading?;
    }
  }

  /** In any reachable state a call for a key that nobody reads gets its own result and leaves the table
      as it was; a call that comes meanwhile gets the same result without a read of its own. */
  lemma FlightDelivers(events: seq<Event>, c: nat, d: nat, key: Key, outcome: Outcome)
    requires c !in Run(events).callers && d !in Run(events).callers && c != d && key !in Run(events).table
    ensures var s := Run(events);
            var t := Run(events + [Enter(c, key), Enter(d, key), Finish(c, outcome), Leave(c), Resume(d)]);
            && t.table == s.table && |t.futures| == |s.futures| + 1
            && t.callers == s.callers[c := Returned(key, |s.futures|, outcome)][d := Returned(key, |s.futures|, outcome)]
  {
    hide Run, Step, Inv;
    RunKeepsInv(events);
    var e1 := events + [Enter(c, key)];
    var e2 := e1 + [Enter(d, key)];
    var e3 := e2 + [Finish(c, outcome)];
    var e4 := e3 + [Leave(c)];
    RunMore(events, Enter(c, key));
    RunMore(e1, Enter(d, key));
    RunMore(e2, Finish(c, outcome));
    RunMore(e3, Leave(c));
    RunMore(e4, Resume(d));
    assert events + [Enter(c, key), Enter(d, key), Finish(c, outcome), Leave(c), Resume(d)] == e4 + [Resume(d)];
    FreshIsNew(Run(events));
    FlightSteps(Run(events), c, d, key, outcome);
  }

  lemma FreshIsNew(s: System)
    requires Inv(s)
    ensures |s.futures| !in s.futures
  {
  }

  lemma FlightSteps(s: System, c: nat, d: nat, key: Key, outcome: Outcome)
    requires c !in s.callers && d !in s.callers && c != d && key !in s.table && |s.futures| !in s.futures
    ensures var s2 := Step(Step(s, Enter(c, key)), Enter(d, key));
            var t := Step(Step(Step(s2, Finish(c, outcome)), Leave(c)), Resume(d));
            && t.table == s.table && |t.futures| == |s.futures| + 1
            && t.callers == s.callers[c := Returned(key, |s.futures|, outcome)][d := Returned(key, |s.futures|, outcome)]
  {
    hide Step;
    var f := |s.futures|;
    EntersMeet(s, c, d, key);
    var s2 := Step(Step(s, Enter(c, key)), Enter(d, key));
    OwnerEnds(s2, c, key, f, outcome);
    var s4 := Step(Step(s2, Finish(c, outcome)), Leave(c));
    WaiterEnds(s4, d, key, f, outcome);
    TableRestored(s.table, key, f);
    OneMoreFuture(s.futures, f, outcome);
  }

  lemma TableRestored(table: map<Key, nat>, key: Key, f: nat)
    requires key !in table
    ensures table[key := f] - {key} == table
  {
  }

  lemma OneMoreFuture(futures: map<nat, Option<Outcome>>, f: nat, outcome: Outcome)
    requires f !in futures
    ensures futures[f := None][f := Some(outcome)] == futures[f := Some(outcome)]
    ensures |futures[f := Some(outcome)]| == |futures| + 1
  {
    assert futures[f := Some(outcome)].Keys == futures.Keys + {f};
    assert |futures[f := Some(outcome)]| == |futures[f := Some(outcome)].Keys| && |futures| == |futures.Keys|;
  }

  /** The first of two calls for an unread key owns the new flight and the second waits for it. */
  lemma EntersMeet(s: System, c: nat, d: nat, key: Key)
    requires c !in s.callers && d !in s.callers && c != d && key !in s.table
    ensures var f := |s.futures|;
            Step(Step(s, Enter(c, key)), Enter(d, key)) ==
            System(s.table[key := f], s.futures[f := None], s.callers[c := Reading(key, f)][d := Waiting(key, f)])
  {
  }

  /** An owner that settles and leaves keeps its result and takes its entry out of the table. */
  lemma OwnerEnds(s: System, c: nat, key: Key, f: nat, outcome: Outcome)
    requires c in s.callers && s.callers[c] == Reading(key, f) && key in s.table && s.table[key] == f
    ensures Step(Step(s, Finish(c, outcome)), Leave(c)) ==
            System(s.table - {key}, s.futures[f := Some(outcome)], s.callers[c := Returned(key, f, outcome)])
  {
    var t := Step(s, Finish(c, outcome));
    assert t.callers[c] == Settling(key, f, outcome);
    assert t.callers[c := Returned(key, f, outcome)] == s.callers[c := Returned(key, f, outcome)];
  }

  /** A waiter on a settled flight returns with what the future holds. */
  lemma WaiterEnds(s: System, d: nat, key: Key, f: nat, outcome: Outcome)
    requires d in s.callers && s.callers[d] == Waiting(key, f) && f in s.futures && s.futures[f] == Some(outcome)
    ensures Step(s, Resume(d)) == s.(callers := s.callers[d := Returned(key, f, outcome)])
  {
  }

  lemma RunMore(events: seq<Event>, e: Event)
    ensures Run(events + [e]) == Step(Run(events), e)
  {
    assert (events + [e])[..|events|] == events;
  }
}
