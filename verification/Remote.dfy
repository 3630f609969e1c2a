/** The network between this client and the server. Every request first plays one turn of a
    script: the edits other clients made meanwhile, then possibly a fault. A script is an
    arbitrary input, so a contract proved here holds for every interleaving. */
module CalDavRemote {
  import opened Prelude
  import opened CalDavServer
  import opened Snapshots
  import opened SyncInvariant

  /** The library exceptions the transport tells apart. */
  datatype Fault = ReportError | AuthorizationError | OtherError

  datatype TokenReply = Token(position: nat) | NoToken | EmulatedToken

  /** `edits` by other clients precede the request; `omit` are hrefs a multiget leaves out. */
  datatype Turn = Turn(edits: seq<Edit>, fault: Option<Fault>, omit: set<Url>, usableToken: TokenReply)

  datatype Reply = Reply(rows: seq<Row>, token: TokenReply)

  /** A loaded resource with the ETag property it carries. */
  datatype Loaded = Loaded(url: Url, etag: nat, body: Body)

  predicate NoEdits(turns: seq<Turn>) {
    forall i :: 0 <= i < |turns| ==> turns[i].edits == []
  }

  predicate NoFaults(turns: seq<Turn>) {
    forall i :: 0 <= i < |turns| ==> turns[i].fault == None
  }

  /** Every turn gives the server's own token. */
  predicate GivesTokens(turns: seq<Turn>) {
    forall i :: 0 <= i < |turns| ==> turns[i].usableToken.Token?
  }

  /** The token the next answer carries, at a log position; a script that has ended gives one. */
  function NextToken(turns: seq<Turn>, position: nat): TokenReply {
    if turns == [] || turns[0].usableToken.Token? then Token(position) else turns[0].usableToken
  }

  /** What the next request meets; a script that has ended brings nothing any more. */
  function NextFault(turns: seq<Turn>): Option<Fault> {
    if turns == [] then None else turns[0].fault
  }

  function Later(turns: seq<Turn>): seq<Turn> {
    if turns == [] then [] else turns[1..]
  }

  lemma FaultFree(turns: seq<Turn>)
    ensures NoFaults(turns) ==> NextFault(turns).None? && NoFaults(Later(turns))
    ensures GivesTokens(turns) ==> NextToken(turns, 0).Token? && GivesTokens(Later(turns))
  {
  }

  /** The server after some edits; one that would break the server hypotheses does not happen. */
  function Played(s: Server, edits: seq<Edit>, roles: Roles, ident: Identities): Server {
    if edits == [] then s
    else
      var before := Played(s, edits[..|edits| - 1], roles, ident);
      var after := Apply(before, edits[|edits| - 1]);
      if Coherent(after, roles, ident) then after else before
  }

  function NextEdits(turns: seq<Turn>): seq<Edit> {
    if turns == [] then [] else turns[0].edits
  }

  /** The rows for the log positions from `since` up to j. */
  ghost predicate RowsUpTo(s: Server, c: string, since: nat, j: nat, rows: seq<Row>) {
    && since <= j <= |s.log|
    && (forall i :: 0 <= i < |rows| ==>
          && rows[i].url.collection == c
          && Pending(s, rows[i].url, since)
          && rows[i].etag == (if rows[i].url in s.resources then Some(s.resources[rows[i].url].etag) else None))
    && (forall k :: since <= k < j && s.log[k].collection == c ==>
          exists i :: 0 <= i < |rows| && rows[i].url == s.log[k])
    && (forall i, k :: 0 <= i < k < |rows| ==> rows[i].url != rows[k].url)
  }

  /** The server's answer: each changed member of the collection once. */
  method RowsSince(s: Server, c: string, since: nat) returns (rows: seq<Row>)
    requires since <= |s.log|
    ensures IsReport(s, c, since, rows)
  {
    rows := [];
    for j := since to |s.log|
      invariant RowsUpTo(s, c, since, j, rows)
    {
      var u := s.log[j];
      RowsGrow(s, c, since, j, rows);
      if u.collection == c && !(exists i :: 0 <= i < |rows| && rows[i].url == u) {
        rows := rows + [Row(u, if u in s.resources then Some(s.resources[u].etag) else None)];
      }
    }
    assert RowsUpTo(s, c, since, |s.log|, rows);
  }

  lemma RowsGrow(s: Server, c: string, since: nat, j: nat, rows: seq<Row>)
    requires RowsUpTo(s, c, since, j, rows) && j < |s.log|
    ensures var u := s.log[j];
            var row := Row(u, if u in s.resources then Some(s.resources[u].etag) else None);
            if u.collection == c && !(exists i :: 0 <= i < |rows| && rows[i].url == u)
            then RowsUpTo(s, c, since, j + 1, rows + [row]) else RowsUpTo(s, c, since, j + 1, rows)
  {
    var u := s.log[j];
    var row := Row(u, if u in s.resources then Some(s.resources[u].etag) else None);
    var more := rows + [row];
    assert more[|rows|] == row;
    forall k | since <= k < j && s.log[k].collection == c ensures exists i :: 0 <= i < |more| && more[i].url == s.log[k] {
      var i :| 0 <= i < |rows| && rows[i].url == s.log[k];
      assert more[i] == rows[i];
    }
  }

  /** A multiget answer to the first k hrefs. */
  ghost predicate Answered(s: Server, urls: seq<Url>, k: nat, omit: set<Url>, loaded: seq<Loaded>)
    requires k <= |urls|
  {
    && (forall i :: 0 <= i < |loaded| ==>
          loaded[i].url in urls && loaded[i].url in s.resources && loaded[i].body == s.resources[loaded[i].url].body)
    && (forall i, j :: 0 <= i < j < |loaded| ==> loaded[i].url != loaded[j].url)
    && (forall m :: 0 <= m < k && urls[m] in s.resources && urls[m] !in omit ==>
          exists i :: 0 <= i < |loaded| && loaded[i].url == urls[m])
  }

  lemma AnswerMore(s: Server, urls: seq<Url>, k: nat, omit: set<Url>, loaded: seq<Loaded>)
    requires k < |urls| && Answered(s, urls, k, omit, loaded) && urls[k] in s.resources
    requires forall i :: 0 <= i < |loaded| ==> loaded[i].url != urls[k]
    ensures Answered(s, urls, k + 1, omit, loaded + [Loaded(urls[k], 0, s.resources[urls[k]].body)])
  {
    var more := loaded + [Loaded(urls[k], 0, s.resources[urls[k]].body)];
    assert more[|loaded|].url == urls[k];
    forall m | 0 <= m < k && urls[m] in s.resources && urls[m] !in omit
      ensures exists i :: 0 <= i < |more| && more[i].url == urls[m]
    {
      var i :| 0 <= i < |loaded| && loaded[i].url == urls[m];
      assert more[i] == loaded[i];
    }
  }

  lemma AnswerNone(s: Server, urls: seq<Url>, omit: set<Url>)
    ensures Answered(s, urls, 0, omit, [])
  {
  }

  lemma AnswerSkips(s: Server, urls: seq<Url>, k: nat, omit: set<Url>, loaded: seq<Loaded>)
    requires k < |urls| && Answered(s, urls, k, omit, loaded)
    requires urls[k] !in s.resources || urls[k] in omit || exists i :: 0 <= i < |loaded| && loaded[i].url == urls[k]
    ensures Answered(s, urls, k + 1, omit, loaded)
  {
  }

  lemma AnswerAll(s: Server, urls: seq<Url>, omit: set<Url>, loaded: seq<Loaded>)
    requires Answered(s, urls, |urls|, omit, loaded)
    ensures forall i :: 0 <= i < |loaded| ==>
              loaded[i].url in urls && loaded[i].url in s.resources && loaded[i].body == s.resources[loaded[i].url].body
    ensures forall i, j :: 0 <= i < j < |loaded| ==> loaded[i].url != loaded[j].url
    ensures forall u :: u in urls && u in s.resources && u !in omit ==> exists i :: 0 <= i < |loaded| && loaded[i].url == u
  {
  }

  class Remote {
    const roles: Roles
    const ident: Identities
    var server: Server
    var turns: seq<Turn>

    constructor (roles: Roles, ident: Identities, server: Server, turns: seq<Turn>)
      requires Coherent(server, roles, ident)
      ensures Valid() && this.roles == roles && this.ident == ident
      ensures this.server == server && this.turns == turns
    {
      this.roles, this.ident, this.server, this.turns := roles, ident, server, turns;
    }

    predicate Valid()
      reads this
    {
      Coherent(server, roles, ident)
    }

    /** Whatever happens on the server during one request. */
    twostate predicate Moved()
      reads this
    {
      && Valid()
      && Evolves(old(server), server)
      && (NoEdits(old(turns)) ==> NoEdits(turns) && server == old(server))
      && (NoFaults(old(turns)) ==> NoFaults(turns))
      && (GivesTokens(old(turns)) ==> GivesTokens(turns))
    }

    /** Play the next turn. An edit that would break the server hypotheses does not happen. */
    method Interleave() returns (turn: Turn)
      requires Valid()
      modifies this
      ensures Moved()
      ensures turns == Later(old(turns)) && turn.fault == NextFault(old(turns))
      ensures server == Played(old(server), NextEdits(old(turns)), roles, ident)
      ensures turn.omit == if old(turns) == [] then {} else old(turns)[0].omit
      ensures turn.usableToken == NextToken(old(turns), if turn.usableToken.Token? then turn.usableToken.position else 0)
    {
      turn := Turn([], None, {}, Token(0));
      if turns != [] {
        turn, turns := turns[0], turns[1..];
      }
      for i := 0 to |turn.edits|
        invariant Valid() && Evolves(old(server), server)
        invariant server == Played(old(server), turn.edits[..i], roles, ident)
        invariant turns == if old(turns) == [] then [] else old(turns)[1..]
      {
        var next := Apply(server, turn.edits[i]);
        assert turn.edits[..i + 1][..i] == turn.edits[..i];
        if Coherent(next, roles, ident) {
          EvolvesApply(server, turn.edits[i]);
          EvolvesTransitive(old(server), server, next);
          server := next;
        }
      }
      assert turn.edits[..|turn.edits|] == turn.edits;
    }

    /** A sync-collection REPORT without a token and without data: only the token matters. */
    method SeedReport(c: string) returns (r: Result<TokenReply, Fault>)
      requires Valid()
      modifies this
      ensures Moved()
      ensures turns == Later(old(turns))
      ensures NextFault(old(turns)) == match r case Ok(_) => None case Err(fault) => Some(fault)
      ensures r.Ok? ==> r.value == NextToken(old(turns), |server.log|)
    {
      var turn := Interleave();
      if turn.fault.Some? {
        return Err(turn.fault.value);
      }
      r := Ok(if turn.usableToken.Token? then Token(|server.log|) else turn.usableToken);
    }

    /** A sync-collection REPORT from a token: hrefs and ETags only. */
    method SyncReport(c: string, since: nat) returns (r: Result<Reply, Fault>)
      requires Valid() && since <= |server.log|
      modifies this
      ensures Moved()
      ensures turns == Later(old(turns))
      ensures NextFault(old(turns)) == match r case Ok(_) => None case Err(fault) => Some(fault)
      ensures r.Ok? ==> IsReport(server, c, since, r.value.rows)
      ensures r.Ok? ==> r.value.token == NextToken(old(turns), |server.log|)
    {
      var turn := Interleave();
      if turn.fault.Some? {
        return Err(turn.fault.value);
      }
      var rows := RowsSince(server, c, since);
      r := Ok(Reply(rows, if turn.usableToken.Token? then Token(|server.log|) else turn.usableToken));
    }

    /** calendar-multiget (section 7.9 of RFC 4791): current bodies of some of the hrefs, each
        at most once; a missing href is left out. */
    method Multiget(urls: seq<Url>) returns (r: Result<seq<Loaded>, Fault>)
      requires Valid()
      modifies this
      ensures Moved()
      ensures turns == Later(old(turns))
      ensures NextFault(old(turns)) == match r case Ok(_) => None case Err(fault) => Some(fault)
      ensures r.Ok? ==>
                && (forall i :: 0 <= i < |r.value| ==>
                      r.value[i].url in urls && r.value[i].url in server.resources &&
                      r.value[i].body == server.resources[r.value[i].url].body)
                && (forall i, j :: 0 <= i < j < |r.value| ==> r.value[i].url != r.value[j].url)
                && (forall u :: u in urls && u in server.resources && (old(turns) == [] || u !in old(turns)[0].omit) ==>
                      exists i :: 0 <= i < |r.value| && r.value[i].url == u)
    {
      hide Answered, NoEdits, NoFaults, GivesTokens, Evolves, Coherent, Played, NextFault, Later;
      var turn := Interleave();
      if turn.fault.Some? {
        return Err(turn.fault.value);
      }
      ghost var s, left := server, turns;
      AnswerNone(s, urls, turn.omit);
      var loaded: seq<Loaded> := [];
      for k := 0 to |urls|
        invariant server == s && turns == left
        invariant Answered(s, urls, k, turn.omit, loaded)
      {
        var u := urls[k];
        if u in server.resources && u !in turn.omit && !(exists i :: 0 <= i < |loaded| && loaded[i].url == u) {
          AnswerMore(s, urls, k, turn.omit, loaded);
          loaded := loaded + [Loaded(u, 0, server.resources[u].body)];
        } else {
          AnswerSkips(s, urls, k, turn.omit, loaded);
        }
      }
      AnswerAll(s, urls, turn.omit, loaded);
      r := Ok(loaded);
    }

    /** GET of one resource; None is a 404. */
    method Load(u: Url) returns (r: Result<Option<Body>, Fault>)
      requires Valid()
      modifies this
      ensures Moved()
      ensures turns == Later(old(turns))
      ensures NextFault(old(turns)) == match r case Ok(_) => None case Err(fault) => Some(fault)
      ensures r.Ok? ==> r.value == (if u in server.resources then Some(server.resources[u].body) else None)
    {
      var turn := Interleave();
      if turn.fault.Some? {
        return Err(turn.fault.value);
      }
      r := Ok(if u in server.resources then Some(server.resources[u].body) else None);
    }

    /** Every resource of one component type in a collection, in the server's order. */
    method List(K: Kind, c: string) returns (r: Result<seq<Item>, Fault>)
      requires Valid()
      modifies this
      ensures Moved()
      ensures turns == Later(old(turns))
      ensures NextFault(old(turns)) == match r case Ok(_) => None case Err(fault) => Some(fault)
      ensures r.Ok? ==> IsScan(server, K, c, r.value)
    {
      var turn := Interleave();
      if turn.fault.Some? {
        return Err(turn.fault.value);
      }
      var items: seq<Item> := [];
      var rest := server.resources.Keys;
      while rest != {}
        invariant rest <= server.resources.Keys
        invariant forall x :: x in items ==> x.url !in rest
        invariant forall x :: x in items ==>
                    x.url.collection == c && Present(server, K, x.url) && x == CurrentItem(server, x.url)
        invariant forall u: Url :: u.collection == c && Present(server, K, u) && u !in rest ==>
                    CurrentItem(server, u) in items
        invariant forall i, j :: 0 <= i < j < |items| ==> items[i].url != items[j].url
        decreases rest
      {
        var u :| u in rest;
        rest := rest - {u};
        if u.collection == c && server.resources[u].body.kind == K {
          assert forall i :: 0 <= i < |items| ==> items[i] in items;
          items := items + [CurrentItem(server, u)];
          assert items[|items| - 1] == CurrentItem(server, u);
        }
      }
      r := Ok(items);
    }
  }
}
