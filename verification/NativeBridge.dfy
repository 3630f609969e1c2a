/** The page's side of native messaging: a FIFO of waiters, where a waiter that timed out stays in
    the queue as a tombstone so that late answers still meet the request they belong to. */
module NativeBridge {
  import opened Prelude

  /** A queued request. `expired` marks a tombstone. */
  datatype Waiter = Waiter(id: nat, expired: bool)

  datatype Outcome = Answered(request: nat, ok: bool) | TimedOut | PostFailed | Disconnected

  datatype Settled = Settled(id: nat, outcome: Outcome)

  /** A message from the host about the request it is working on. */
  datatype Reply = Progress(about: nat) | Final(about: nat, ok: bool)

  /** What the page remembers. `log` lists every promise settlement, `progress` every progress
      callback with the request the message was about. */
  datatype Page = Page(port: bool, waiters: seq<Waiter>, log: seq<Settled>, progress: seq<(nat, nat)>, nextId: nat)

  // ---- the page's callbacks, as functions on its state ----

  function Send(p: Page, posted: bool): Page {
    if posted then p.(port := true, waiters := p.waiters + [Waiter(p.nextId, false)], nextId := p.nextId + 1)
    else p.(port := true, log := p.log + [Settled(p.nextId, PostFailed)], nextId := p.nextId + 1)
  }

  /** The position of a live waiter: its timer runs exactly while it is queued and not expired. */
  function Live(waiters: seq<Waiter>, id: nat): (r: Option<nat>)
    ensures r.Some? ==> r.value < |waiters| && waiters[r.value] == Waiter(id, false)
    ensures r.None? ==> Waiter(id, false) !in waiters
  {
    if waiters == [] then None
    else if waiters[0] == Waiter(id, false) then Some(0)
    else match Live(waiters[1..], id)
         case None => None
         case Some(i) => Some(i + 1)
  }

  function Expire(p: Page, id: nat): Page {
    match Live(p.waiters, id)
    case None => p
    case Some(i) => p.(waiters := p.waiters[i := Waiter(id, true)], log := p.log + [Settled(id, TimedOut)])
  }

  function Receive(p: Page, reply: Reply): Page {
    if p.waiters == [] then p
    else
      var w := p.waiters[0];
      match reply
      case Progress(about) => if w.expired then p else p.(progress := p.progress + [(w.id, about)])
      case Final(about, ok) =>
        p.(waiters := p.waiters[1..],
           log := if w.expired then p.log else p.log + [Settled(w.id, Answered(about, ok))])
  }

  function Rejections(waiters: seq<Waiter>): seq<Settled> {
    if waiters == [] then []
    else
      var init := Rejections(waiters[..|waiters| - 1]);
      var last := waiters[|waiters| - 1];
      if last.expired then init else init + [Settled(last.id, Disconnected)]
  }

  function Drop(p: Page): Page {
    p.(port := false, waiters := [], log := p.log + Rejections(p.waiters))
  }

  // ---- the callbacks themselves ----

  class Bridge {
    var port: bool
    var waiters: seq<Waiter>
    var log: seq<Settled>
    var progress: seq<(nat, nat)>
    var nextId: nat

    constructor ()
      ensures State() == Run([]).page && !port && waiters == [] && log == []
    {
      port, waiters, log, progress, nextId := false, [], [], [], 0;
    }

    function State(): Page
      reads this
    {
      Page(port, waiters, log, progress, nextId)
    }

    /** Queue a waiter and post the message; if posting throws, take the waiter out again. */
    method Host(posted: bool) returns (id: nat)
      modifies this
      ensures id == old(nextId) && State() == Send(old(State()), posted)
    {
      id := nextId;
      port := true;
      waiters := waiters + [Waiter(id, false)];
      nextId := nextId + 1;
      if !posted {
        assert waiters[|waiters| - 1] == Waiter(id, false);
        waiters := waiters[..|waiters| - 1];
        log := log + [Settled(id, PostFailed)];
      }
    }

    method OnTimeout(id: nat)
      modifies this
      ensures State() == Expire(old(State()), id)
    {
      var at := Live(waiters, id);
      if at.Some? {
        waiters := waiters[at.value := Waiter(id, true)];
        log := log + [Settled(id, TimedOut)];
      }
    }

    method OnMessage(reply: Reply)
      modifies this
      ensures State() == Receive(old(State()), reply)
    {
      if waiters == [] {
        return;
      }
      var w := waiters[0];
      if reply.Progress? {
        if !w.expired { progress := progress + [(w.id, reply.about)]; }
        return;
      }
      waiters := waiters[1..];
      if !w.expired { log := log + [Settled(w.id, Answered(reply.about, reply.ok))]; }
    }

    /** Drain the queue, rejecting everyone who still waits. */
    method OnDisconnect()
      modifies this
      ensures State() == Drop(old(State()))
    {
      port := false;
      ghost var all := waiters;
      ghost var before := log;
      ghost var n := 0;
      while waiters != []
        invariant n <= |all| && waiters == all[n..]
        invariant log == before + Rejections(all[..n])
        invariant !port && progress == old(progress) && nextId == old(nextId)
        decreases |waiters|
      {
        var w := waiters[0];
        waiters := waiters[1..];
        if !w.expired { log := log + [Settled(w.id, Disconnected)]; }
        assert all[..n + 1][..n] == all[..n];
        n := n + 1;
      }
      assert all[..n] == all;
    }
  }

  // ---- the whole system ----

  /** `requests` are posted and not answered, `replies` are on their way back, and `answers` is what
      the host ever answered to each request. */
  datatype System = System(page: Page, requests: seq<nat>, replies: seq<Reply>, answers: map<nat, bool>)

  datatype Event =
    | Request(posted: bool)
    | Timeout(id: nat)
    | HostProgress
    | HostAnswer(ok: bool)
    | Deliver
    | Disconnect

  /** The host reads requests in order and sends progress, then exactly one final answer, about
      the request it is working on. A disconnect loses whatever is on the wire. */
  function Step(s: System, e: Event): System {
    match e
    case Request(posted) =>
      s.(page := Send(s.page, posted), requests := if posted then s.requests + [s.page.nextId] else s.requests)
    case Timeout(id) => s.(page := Expire(s.page, id))
    case HostProgress => if s.requests == [] then s else s.(replies := s.replies + [Progress(s.requests[0])])
    case HostAnswer(ok) =>
      if s.requests == [] then s
      else s.(replies := s.replies + [Final(s.requests[0], ok)], requests := s.requests[1..],
              answers := s.answers[s.requests[0] := ok])
    case Deliver => if s.replies == [] then s else s.(page := Receive(s.page, s.replies[0]), replies := s.replies[1..])
    case Disconnect => System(Drop(s.page), [], [], s.answers)
  }

  function Run(events: seq<Event>): System {
    if events == [] then System(Page(false, [], [], [], 0), [], [], map[])
    else Step(Run(events[..|events| - 1]), events[|events| - 1])
  }

  /** The requests that the final answers on the wire are about. */
  function Answering(replies: seq<Reply>): seq<nat> {
    if replies == [] then []
    else if replies[0].Final? then [replies[0].about] + Answering(replies[1..])
    else Answering(replies[1..])
  }

  /** Every progress message is about the request whose answer comes next. */
  predicate Aligned(replies: seq<Reply>, requests: seq<nat>) {
    replies == [] ||
    (Aligned(replies[1..], requests) &&
     (replies[0].Progress? ==>
        var next := Answering(replies[1..]) + requests;
        next != [] && next[0] == replies[0].about))
  }

  predicate IsSettled(p: Page, id: nat) {
    exists i :: 0 <= i < |p.log| && p.log[i].id == id
  }

  function Ids(waiters: seq<Waiter>): seq<nat> {
    seq(|waiters|, i requires 0 <= i < |waiters| => waiters[i].id)
  }

  /** Queue and wire talk about the same requests in the same order, and a closed port has an
      empty queue. */
  ghost predicate InOrder(s: System) {
    && Ids(s.page.waiters) == Answering(s.replies) + s.requests
    && Aligned(s.replies, s.requests)
    && (!s.page.port ==> s.page.waiters == [])
  }

  /** Nothing settles twice, and every answer and progress message reached its own request. */
  predicate SettledOnce(p: Page) {
    && (forall i :: 0 <= i < |p.log| ==> p.log[i].id < p.nextId)
    && (forall i, j :: 0 <= i < j < |p.log| ==> p.log[i].id != p.log[j].id)
    && (forall i :: 0 <= i < |p.log| && p.log[i].outcome.Answered? ==> p.log[i].outcome.request == p.log[i].id)
    && (forall i :: 0 <= i < |p.progress| ==> p.progress[i].0 == p.progress[i].1)
  }

  /** A promise is settled exactly when its waiter is a tombstone or gone. */
  ghost predicate Accounted(p: Page) {
    && (forall i, j :: 0 <= i < j < |p.waiters| ==> p.waiters[i].id != p.waiters[j].id)
    && (forall w :: w in p.waiters ==> w.id < p.nextId && (w.expired <==> IsSettled(p, w.id)))
    && (forall id: nat :: id < p.nextId && !IsSettled(p, id) ==> Waiter(id, false) in p.waiters)
  }

  ghost predicate Inv(s: System) {
    InOrder(s) && SettledOnce(s.page) && Accounted(s.page)
  }

  lemma {:induction false} AnsweringAppend(replies: seq<Reply>, r: Reply)
    ensures Answering(replies + [r]) == Answering(replies) + if r.Final? then [r.about] else []
  {
    if replies == [] {
      assert replies + [r] == [r] && [r][1..] == [];
    } else {
      assert (replies + [r])[1..] == replies[1..] + [r];
      AnsweringAppend(replies[1..], r);
    }
  }

  /** A new request keeps the alignment. */
  lemma {:induction false} AlignedWithRequest(replies: seq<Reply>, requests: seq<nat>, id: nat)
    requires Aligned(replies, requests)
    ensures Aligned(replies, requests + [id])
  {
    hide Answering;
    if replies != [] {
      AlignedWithRequest(replies[1..], requests, id);
      assert Answering(replies[1..]) + (requests + [id]) == (Answering(replies[1..]) + requests) + [id];
    }
  }

  /** What is left to answer once the host has sent r. */
  function After(r: Reply, requests: seq<nat>): seq<nat>
    requires requests != []
  {
    if r.Final? then requests[1..] else requests
  }

  /** The host's next message, about its first request, keeps the alignment. */
  lemma {:induction false} AlignedWithReply(replies: seq<Reply>, requests: seq<nat>, r: Reply)
    requires Aligned(replies, requests) && requests != [] && r.about == requests[0]
    ensures Aligned(replies + [r], After(r, requests))
    ensures Answering(replies + [r]) + After(r, requests) == Answering(replies) + requests
  {
    AnsweringAppend(replies, r);
    assert requests == [requests[0]] + requests[1..];
    if replies == [] {
      assert replies + [r] == [r] && [r][1..] == [];
    } else {
      assert (replies + [r])[1..] == replies[1..] + [r];
      AlignedWithReply(replies[1..], requests, r);
    }
  }

  lemma WireKeepsInv(s: System, e: Event)
    requires Inv(s) && (e.HostProgress? || e.HostAnswer?)
    ensures Inv(Step(s, e))
  {
    hide Answering, Aligned, SettledOnce, Accounted, Ids;
    if s.requests != [] {
      AlignedWithReply(s.replies, s.requests, if e.HostProgress? then Progress(s.requests[0]) else Final(s.requests[0], e.ok));
    }
  }

  lemma SettleKeeps(p: Page, q: Page, entry: Settled)
    requires q.log == p.log + [entry] && q.nextId >= p.nextId
    ensures forall id :: IsSettled(q, id) <==> IsSettled(p, id) || id == entry.id
  {
    assert q.log[|p.log|] == entry;
    forall id | IsSettled(p, id) ensures IsSettled(q, id) {
      var i :| 0 <= i < |p.log| && p.log[i].id == id;
      assert q.log[i].id == id;
    }
  }

  /** One more settlement, of a request that is not settled yet and by its own answer if any. */
  lemma SettleOnceMore(p: Page, q: Page, entry: Settled)
    requires SettledOnce(p) && q.log == p.log + [entry] && q.progress == p.progress && q.nextId >= p.nextId
    requires entry.id < q.nextId && !IsSettled(p, entry.id)
    requires entry.outcome.Answered? ==> entry.outcome.request == entry.id
    ensures SettledOnce(q)
  {
  }

  lemma RequestKeepsInv(s: System, posted: bool)
    requires Inv(s)
    ensures Inv(Step(s, Request(posted)))
  {
    hide Answering, Aligned, SettledOnce, Accounted;
    var p, q := s.page, Send(s.page, posted);
    SendAccounts(p, posted);
    AlignedWithRequest(s.replies, s.requests, p.nextId);
    if posted {
      assert Ids(q.waiters) == Ids(p.waiters) + [p.nextId];
      assert Answering(s.replies) + (s.requests + [p.nextId]) == Answering(s.replies) + s.requests + [p.nextId];
    }
  }

  lemma SendAccounts(p: Page, posted: bool)
    requires SettledOnce(p) && Accounted(p)
    ensures SettledOnce(Send(p, posted)) && Accounted(Send(p, posted))
  {
    var q := Send(p, posted);
    if posted {
      assert forall w :: w in p.waiters ==> w in q.waiters;
      assert q.waiters[|p.waiters|] == Waiter(p.nextId, false);
      assert forall id :: IsSettled(q, id) <==> IsSettled(p, id);
      assert forall i :: 0 <= i < |p.waiters| ==> p.waiters[i] in p.waiters;
    } else {
      SettleKeeps(p, q, Settled(p.nextId, PostFailed));
    }
  }

  lemma TimeoutKeepsInv(s: System, id: nat)
    requires Inv(s)
    ensures Inv(Step(s, Timeout(id)))
  {
    hide Answering, Aligned, SettledOnce, Accounted, Live;
    ExpireAccounts(s.page, id);
    assert Ids(Expire(s.page, id).waiters) == Ids(s.page.waiters);
  }

  lemma ExpireAccounts(p: Page, id: nat)
    requires SettledOnce(p) && Accounted(p)
    ensures SettledOnce(Expire(p, id)) && Accounted(Expire(p, id))
  {
    hide Live, SettledOnce, IsSettled;
    var q := Expire(p, id);
    match Live(p.waiters, id)
    case None =>
    case Some(i) =>
      assert p.waiters[i] in p.waiters && !IsSettled(p, id);
      SettleKeeps(p, q, Settled(id, TimedOut));
      SettleOnceMore(p, q, Settled(id, TimedOut));
      forall w | w in q.waiters ensures w.id < q.nextId && (w.expired <==> IsSettled(q, w.id)) {
        var j :| 0 <= j < |q.waiters| && q.waiters[j] == w;
        assert p.waiters[j] in p.waiters;
      }
      forall other: nat | other < q.nextId && !IsSettled(q, other) ensures Waiter(other, false) in q.waiters {
        var j :| 0 <= j < |p.waiters| && p.waiters[j] == Waiter(other, false);
        assert q.waiters[j] == p.waiters[j];
      }
  }

  lemma DeliverKeepsInv(s: System)
    requires Inv(s)
    ensures Inv(Step(s, Deliver))
  {
    hide SettledOnce, Accounted, InOrder, Receive;
    if s.replies != [] {
      DeliverInOrder(s);
      ReceiveAccounts(s.page, s.replies[0]);
    }
  }

  lemma DeliverInOrder(s: System)
    requires InOrder(s) && s.replies != []
    ensures s.page.waiters != [] && s.page.waiters[0].id == s.replies[0].about
    ensures InOrder(Step(s, Deliver))
  {
    hide Ids, Answering;
    var p, reply := s.page, s.replies[0];
    AnsweringFirst(s.replies, s.requests);
    IdsFirst(p.waiters);
    assert Ids(p.waiters)[0] == reply.about;
    if reply.Final? {
      var rest := Answering(s.replies[1..]) + s.requests;
      assert Ids(p.waiters)[1..] == ([reply.about] + rest)[1..] == rest;
    }
  }

  lemma IdsFirst(waiters: seq<Waiter>)
    ensures waiters == [] <==> Ids(waiters) == []
    ensures waiters != [] ==> Ids(waiters)[0] == waiters[0].id && Ids(waiters[1..]) == Ids(waiters)[1..]
  {
  }

  lemma AnsweringFirst(replies: seq<Reply>, requests: seq<nat>)
    requires replies != []
    ensures Answering(replies) + requests ==
            (if replies[0].Final? then [replies[0].about] else []) + (Answering(replies[1..]) + requests)
  {
  }

  lemma ReceiveAccounts(p: Page, reply: Reply)
    requires SettledOnce(p) && Accounted(p) && p.waiters != [] && p.waiters[0].id == reply.about
    ensures SettledOnce(Receive(p, reply)) && Accounted(Receive(p, reply))
  {
    var q := Receive(p, reply);
    if reply.Progress? {
      assert forall id :: IsSettled(q, id) <==> IsSettled(p, id);
    } else {
      TakeFirst(p, reply);
      ReceiveSettles(p, reply);
    }
  }

  lemma ReceiveSettles(p: Page, reply: Reply)
    requires SettledOnce(p) && Accounted(p) && p.waiters != [] && p.waiters[0].id == reply.about && reply.Final?
    ensures var q := Receive(p, reply);
            SettledOnce(q) && forall id :: IsSettled(q, id) <==> IsSettled(p, id) || id == reply.about
  {
    hide IsSettled, SettledOnce;
    assert p.waiters[0] in p.waiters;
    if p.waiters[0].expired {
      SameLog(p, Receive(p, reply));
    } else {
      var entry := Settled(reply.about, Answered(reply.about, reply.ok));
      SettleKeeps(p, Receive(p, reply), entry);
      SettleOnceMore(p, Receive(p, reply), entry);
    }
  }

  lemma SameLog(p: Page, q: Page)
    requires q.log == p.log && q.progress == p.progress && q.nextId == p.nextId
    ensures SettledOnce(q) <==> SettledOnce(p)
    ensures forall id :: IsSettled(q, id) <==> IsSettled(p, id)
  {
  }

  lemma TakeFirst(p: Page, reply: Reply)
    requires SettledOnce(p) && Accounted(p) && p.waiters != [] && p.waiters[0].id == reply.about && reply.Final?
    ensures Accounted(Receive(p, reply))
  {
    hide IsSettled, SettledOnce;
    ReceiveSettles(p, reply);
    var q := Receive(p, reply);
    assert p.waiters == [p.waiters[0]] + q.waiters && p.waiters[0] in p.waiters;
    forall x | x in q.waiters ensures x in p.waiters && x.id != reply.about {
      var j :| 0 <= j < |q.waiters| && q.waiters[j] == x;
      assert p.waiters[j + 1] == x;
    }
  }

  lemma {:induction false} RejectionsContents(waiters: seq<Waiter>)
    requires forall i, j :: 0 <= i < j < |waiters| ==> waiters[i].id != waiters[j].id
    ensures var r := Rejections(waiters);
            && (forall x :: x in r <==> x.outcome == Disconnected && Waiter(x.id, false) in waiters)
            && (forall i, j :: 0 <= i < j < |r| ==> r[i].id != r[j].id)
  {
    if waiters != [] {
      var init, last := waiters[..|waiters| - 1], waiters[|waiters| - 1];
      assert waiters == init + [last];
      RejectionsContents(init);
      var r := Rejections(init);
      forall i | 0 <= i < |r| ensures r[i].id != last.id {
        assert r[i] in r;
        var j :| 0 <= j < |init| && init[j] == Waiter(r[i].id, false);
        assert waiters[j].id != waiters[|waiters| - 1].id;
      }
    }
  }

  lemma DisconnectKeepsInv(s: System)
    requires Inv(s)
    ensures Inv(Step(s, Disconnect))
    ensures Step(s, Disconnect).page.waiters == []
    ensures forall id: nat :: id < s.page.nextId ==> IsSettled(Step(s, Disconnect).page, id)
  {
    hide SettledOnce, IsSettled;
    DropSettlesOnce(s.page);
    DropSettlesAll(s.page);
  }

  lemma DropSettlesOnce(p: Page)
    requires SettledOnce(p) && Accounted(p)
    ensures SettledOnce(Drop(p))
  {
    var r := Rejections(p.waiters);
    RejectionsContents(p.waiters);
    forall i | 0 <= i < |r| ensures r[i].id < p.nextId && !IsSettled(p, r[i].id) && !r[i].outcome.Answered? {
      assert r[i] in r;
    }
    hide Accounted, Rejections;
    forall i, j | 0 <= i < |p.log| && 0 <= j < |r| ensures p.log[i].id != r[j].id {
      assert IsSettled(p, p.log[i].id);
    }
  }

  lemma DropSettlesAll(p: Page)
    requires Accounted(p)
    ensures forall id: nat :: id < p.nextId ==> IsSettled(Drop(p), id)
  {
    hide Rejections;
    var q, r := Drop(p), Rejections(p.waiters);
    RejectionsContents(p.waiters);
    forall id: nat | id < p.nextId ensures IsSettled(q, id) {
      if IsSettled(p, id) {
        var i :| 0 <= i < |p.log| && p.log[i].id == id;
        assert q.log[i].id == id;
      } else {
        assert Settled(id, Disconnected) in r;
        var i :| 0 <= i < |r| && r[i] == Settled(id, Disconnected);
        assert q.log[|p.log| + i].id == id;
      }
    }
  }

  /** In every interleaving of requests, failed posts, timeouts, progress, late answers and
      disconnects: each promise settles at most once, an answer or progress message reaches only
      the request it is about, and the queue stays in step with the wire. */
  lemma {:induction false} RunKeepsInv(events: seq<Event>)
    ensures Inv(Run(events))
  {
    if events != [] {
      var s := Run(events[..|events| - 1]);
      RunKeepsInv(events[..|events| - 1]);
      match events[|events| - 1]
      case Request(posted) => RequestKeepsInv(s, posted);
      case Timeout(id) => TimeoutKeepsInv(s, id);
      case HostProgress => WireKeepsInv(s, HostProgress);
      case HostAnswer(ok) => WireKeepsInv(s, HostAnswer(ok));
      case Deliver => DeliverKeepsInv(s);
      case Disconnect => DisconnectKeepsInv(s);
    }
  }

  /** Every answer on the wire says what the host answered to its request. */
  predicate TrueWire(replies: seq<Reply>, answers: map<nat, bool>) {
    forall r :: r in replies && r.Final? ==> r.about in answers && answers[r.about] == r.ok
  }

  /** And so does every answer in the log. */
  predicate TrueLog(log: seq<Settled>, answers: map<nat, bool>) {
    forall e :: e in log && e.outcome.Answered? ==>
                  e.outcome.request in answers && answers[e.outcome.request] == e.outcome.ok
  }

  /** A request still to be answered has no answer yet. */
  predicate Unanswered(requests: seq<nat>, answers: map<nat, bool>, nextId: nat) {
    && (forall id :: id in requests ==> id !in answers && id < nextId)
    && (forall id :: id in answers ==> id < nextId)
    && (forall i, j :: 0 <= i < j < |requests| ==> requests[i] != requests[j])
  }

  ghost predicate Truthful(s: System) {
    && TrueWire(s.replies, s.answers) && TrueLog(s.page.log, s.answers)
    && Unanswered(s.requests, s.answers, s.page.nextId)
  }

  lemma StepKeepsTruth(s: System, e: Event)
    requires Truthful(s)
    ensures Truthful(Step(s, e))
  {
    hide TrueWire, TrueLog, Unanswered;
    match e
    case Request(posted) =>
      LogMore(s.page.log, s.answers, [Settled(s.page.nextId, PostFailed)]);
      AskMore(s.requests, s.answers, s.page.nextId);
    case Timeout(id) => LogMore(s.page.log, s.answers, [Settled(id, TimedOut)]);
    case HostProgress =>
      if s.requests != [] { WireMore(s.replies, s.answers, Progress(s.requests[0])); }
    case HostAnswer(ok) =>
      if s.requests != [] {
        AnswerOne(s.requests, s.answers, s.page.nextId, ok, s.replies, s.page.log);
        WireMore(s.replies, s.answers[s.requests[0] := ok], Final(s.requests[0], ok));
      }
    case Deliver =>
      if s.replies != [] {
        WireLess(s.replies, s.answers);
        var reply := s.replies[0];
        if reply.Final? && s.page.waiters != [] {
          LogMore(s.page.log, s.answers, [Settled(s.page.waiters[0].id, Answered(reply.about, reply.ok))]);
        }
      }
    case Disconnect =>
      RejectionsAreDisconnects(s.page.waiters);
      LogMore(s.page.log, s.answers, Rejections(s.page.waiters));
      NothingPending(s.answers, s.page.nextId, s.requests);
  }

  lemma LogMore(log: seq<Settled>, answers: map<nat, bool>, more: seq<Settled>)
    requires TrueLog(log, answers)
    ensures TrueLog(more, answers) ==> TrueLog(log + more, answers)
    ensures (forall e :: e in more ==> !e.outcome.Answered?) ==> TrueLog(more, answers)
    ensures |more| == 1 && more[0].outcome.Answered? && more[0].outcome.request in answers &&
            answers[more[0].outcome.request] == more[0].outcome.ok ==>
              TrueLog(more, answers)
  {
  }

  lemma AskMore(requests: seq<nat>, answers: map<nat, bool>, nextId: nat)
    requires Unanswered(requests, answers, nextId)
    ensures Unanswered(requests, answers, nextId + 1) && Unanswered(requests + [nextId], answers, nextId + 1)
  {
    assert forall i :: 0 <= i < |requests| ==> requests[i] in requests;
  }

  lemma WireMore(replies: seq<Reply>, answers: map<nat, bool>, r: Reply)
    requires TrueWire(replies, answers) && (r.Final? ==> r.about in answers && answers[r.about] == r.ok)
    ensures TrueWire(replies + [r], answers)
  {
  }

  lemma WireLess(replies: seq<Reply>, answers: map<nat, bool>)
    requires TrueWire(replies, answers) && replies != []
    ensures TrueWire(replies[1..], answers)
    ensures replies[0].Final? ==> replies[0].about in answers && answers[replies[0].about] == replies[0].ok
  {
    assert replies[0] in replies;
  }

  /** The host's answer is the first one to its request, so it changes no other. */
  lemma AnswerOne(requests: seq<nat>, answers: map<nat, bool>, nextId: nat, ok: bool, replies: seq<Reply>, log: seq<Settled>)
    requires Unanswered(requests, answers, nextId) && requests != [] && TrueWire(replies, answers) && TrueLog(log, answers)
    ensures var now := answers[requests[0] := ok];
            Unanswered(requests[1..], now, nextId) && TrueWire(replies, now) && TrueLog(log, now)
  {
    var first, rest := requests[0], requests[1..];
    assert first in requests;
    assert forall i :: 0 <= i < |rest| ==> rest[i] == requests[i + 1];
    forall id | id in rest ensures id in requests && id != first {
      var i :| 0 <= i < |rest| && rest[i] == id;
      assert requests[i + 1] == id;
    }
  }

  lemma NothingPending(answers: map<nat, bool>, nextId: nat, requests: seq<nat>)
    requires Unanswered(requests, answers, nextId)
    ensures Unanswered([], answers, nextId) && TrueWire([], answers)
  {
  }

  lemma {:induction false} RejectionsAreDisconnects(waiters: seq<Waiter>)
    ensures forall x :: x in Rejections(waiters) ==> x.outcome == Disconnected
  {
    if waiters != [] { RejectionsAreDisconnects(waiters[..|waiters| - 1]); }
  }

  lemma {:induction false} RunKeepsTruth(events: seq<Event>)
    ensures Truthful(Run(events))
  {
    if events != [] {
      hide Step;
      RunKeepsTruth(events[..|events| - 1]);
      StepKeepsTruth(Run(events[..|events| - 1]), events[|events| - 1]);
    }
  }

  /** Read off the promise log of any run: a request settles at most once, and an answered one was
      settled with what the host answered to this very request. */
  lemma AnswersMatchRequests(events: seq<Event>, i: nat, j: nat)
    requires i < |Run(events).page.log| && j < |Run(events).page.log|
    ensures var s := Run(events);
            var log := s.page.log;
            && (log[i].outcome.Answered? ==>
                  log[i].outcome.request == log[i].id && log[i].id in s.answers && s.answers[log[i].id] == log[i].outcome.ok)
            && (log[i].id == log[j].id ==> i == j)
  {
    RunKeepsInv(events);
    RunKeepsTruth(events);
    assert Run(events).page.log[i] in Run(events).page.log;
  }

  /** Each progress callback got a message about its own request. */
  lemma ProgressMatchesRequests(events: seq<Event>, i: nat)
    requires i < |Run(events).page.progress|
    ensures Run(events).page.progress[i].0 == Run(events).page.progress[i].1
  {
    RunKeepsInv(events);
  }

  /** How a request can end other than by an answer: a timeout ends exactly one that still waits, a
      failed post only its own, and a disconnect every one that still waits. */
  lemma OtherSettlements(events: seq<Event>, id: nat)
    ensures var s := Run(events);
            && Step(s, Request(false)).page.log == s.page.log + [Settled(s.page.nextId, PostFailed)]
            && Step(s, Request(true)).page.log == s.page.log
            && Step(s, Timeout(id)).page.log ==
                 (if id < s.page.nextId && !IsSettled(s.page, id) then s.page.log + [Settled(id, TimedOut)] else s.page.log)
    ensures var s, t := Run(events), Step(Run(events), Disconnect);
            id < s.page.nextId && !IsSettled(s.page, id) ==> Settled(id, Disconnected) in t.page.log
  {
    hide Run, Rejections, InOrder, SettledOnce;
    RunKeepsInv(events);
    RejectionsContents(Run(events).page.waiters);
  }

  /** An answer that the host gave is never changed later. */
  lemma AnswersStay(s: System, e: Event, id: nat)
    requires Truthful(s) && id in s.answers
    ensures id in Step(s, e).answers && Step(s, e).answers[id] == s.answers[id]
  {
    if s.requests != [] { assert s.requests[0] in s.requests; }
  }

  /** After a disconnect no request ever made is left waiting. */
  lemma NobodyWaitsAfterDisconnect(events: seq<Event>)
    ensures var p := Run(events + [Disconnect]).page;
            && p.waiters == [] && !p.port
            && forall id: nat :: id < p.nextId ==> IsSettled(p, id)
  {
    assert (events + [Disconnect])[..|events|] == events;
    RunKeepsInv(events);
    DisconnectKeepsInv(Run(events));
  }

  lemma RunMore(events: seq<Event>, e: Event)
    ensures Run(events + [e]) == Step(Run(events), e)
  {
    assert (events + [e])[..|events|] == events;
  }

  /** With nothing else under way, a request gets its progress message and then the host's answer, from
      any reachable state. */
  lemma RoundTrip(events: seq<Event>, ok: bool)
    requires Run(events).requests == [] && Run(events).replies == []
    ensures var s := Run(events);
            var id := s.page.nextId;
            var t := Run(events + [Request(true), HostProgress, HostAnswer(ok), Deliver, Deliver]);
            && t.page.log == s.page.log + [Settled(id, Answered(id, ok))]
            && t.page.progress == s.page.progress + [(id, id)]
            && t.requests == [] && t.replies == [] && t.page.waiters == []
  {
    RunKeepsInv(events);
    var s := Run(events);
    assert s.page.waiters == [] by { IdsFirst(s.page.waiters); }
    var e1 := events + [Request(true)];
    var e2 := e1 + [HostProgress];
    var e3 := e2 + [HostAnswer(ok)];
    var e4 := e3 + [Deliver];
    RunMore(events, Request(true));
    RunMore(e1, HostProgress);
    RunMore(e2, HostAnswer(ok));
    RunMore(e3, Deliver);
    RunMore(e4, Deliver);
    assert events + [Request(true), HostProgress, HostAnswer(ok), Deliver, Deliver] == e4 + [Deliver];
    hide Run;
    assert Run(e1).requests == [s.page.nextId] && Run(e1).page.waiters == [Waiter(s.page.nextId, false)];
    assert Run(e2).replies == [Progress(s.page.nextId)];
    assert Run(e3).replies == [Progress(s.page.nextId), Final(s.page.nextId, ok)];
    assert Run(e4).replies == [Final(s.page.nextId, ok)];
  }

  /** The host answers everything and everything is delivered. */
  function Drained(s: System): System
    decreases 2 * |s.requests| + |s.replies|
  {
    if s.replies != [] then Drained(Step(s, Deliver))
    else if s.requests != [] then Drained(Step(s, HostAnswer(true)))
    else s
  }

  /** So from every reachable state, if only the host goes on answering, every request is settled. */
  lemma {:induction false} EveryRequestSettles(s: System)
    requires Inv(s)
    ensures var t := Drained(s);
            t.page.waiters == [] && t.page.nextId == s.page.nextId &&
            forall id: nat :: id < s.page.nextId ==> IsSettled(t.page, id)
    decreases 2 * |s.requests| + |s.replies|
  {
    hide SettledOnce, IsSettled;
    if s.replies != [] {
      DeliverKeepsInv(s);
      EveryRequestSettles(Step(s, Deliver));
    } else if s.requests != [] {
      WireKeepsInv(s, HostAnswer(true));
      EveryRequestSettles(Step(s, HostAnswer(true)));
    } else {
      IdsFirst(s.page.waiters);
    }
  }
}
