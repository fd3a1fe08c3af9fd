/** Which calls lose their row number (backends/journal_store.py:1023-1034): a server keeps the numbers of
    at most `maxlen` writing calls, so one loses its own exactly when too many are unfinished at once. */
module JournalLost {

  import opened Wrappers
  import opened Journal
  import opened JournalRuns
  import opened JournalWriteBehind

  /** The server's own writing calls that have not finished. */
  ghost function Unfinished(w: World, server: nat): set<nat> {
    set ticket | ticket in w.calls && w.calls[ticket].server == server && w.calls[ticket].record.id.Minted?
                 && !w.calls[ticket].record.request.readOnly && w.calls[ticket].ended.None?
  }

  function MaxLen(w: World, server: nat): nat
    requires server in w.servers
  {
    w.servers[server].maxlen
  }

  /** A begin of a server's own writing call. */
  predicate BeginsWrite(e: Event, server: nat) {
    e.Begin? && e.server == server && e.id.Minted? && !e.request.readOnly
  }

  // ── the noted calls are the unfinished ones not lost ──

  ghost function Tickets(w: World, seqs: seq<Note>): set<nat>
    requires forall n | n in seqs :: n.id in w.tickets
  {
    set n | n in seqs :: w.tickets[n.id]
  }

  lemma {:induction false} TicketsCount(w: World, seqs: seq<Note>)
    requires Registered(w) && forall n | n in seqs :: n.id in w.tickets
    requires forall i, j | 0 <= i < j < |seqs| :: seqs[i].id != seqs[j].id
    ensures |Tickets(w, seqs)| == |seqs|
    decreases |seqs|
  {
    hide Registered;
    if seqs == [] {
      assert Tickets(w, seqs) == {};
    } else {
      var rest := seqs[1..];
      TicketsCount(w, rest) by {
        assert Registered(w);
      }
      var first := w.tickets[seqs[0].id];
      assert first !in Tickets(w, rest) by {
        forall n | n in rest ensures w.tickets[n.id] != first {
          var k :| 0 <= k < |rest| && rest[k] == n;
          assert seqs[k + 1] == n;
          DifferentTickets(w, seqs[0].id, n.id);
        }
      }
      assert forall n :: n in seqs <==> n == seqs[0] || n in rest;
      assert Tickets(w, seqs) == {first} + Tickets(w, rest);
    }
  }

  lemma DifferentTickets(w: World, a: OpId, b: OpId)
    requires Registered(w) && a in w.tickets && b in w.tickets && a != b
    ensures w.tickets[a] != w.tickets[b]
  {
  }

  /** A noted call is an unfinished writing call of the server, not lost; and such a call is noted. */
  lemma NotedIsUnfinished(w: World, server: nat, ticket: nat)
    requires Books(w) && server in w.alive
    ensures server in w.servers && var seqs := w.servers[server].seqs;
      && (forall n | n in seqs :: n.id in w.tickets)
      && ((exists n :: n in seqs && w.tickets[n.id] == ticket) <==> ticket in Unfinished(w, server) && ticket !in w.lost)
  {
    var s := w.servers[server];
    assert ServerOk(w.table, s, server);
    forall n | n in s.seqs ensures n.id in w.tickets && w.calls[w.tickets[n.id]].server == server {
      assert HasSeq(s.seqs, n.id);
      OwnerOfMention(w, server, n.id);
    }
    if n :| n in s.seqs && w.tickets[n.id] == ticket {
      NoteStands(w, server, n, ticket);
    }
    if ticket in Unfinished(w, server) && ticket !in w.lost {
      assert CallOk(w, ticket);
      var id := w.calls[ticket].record.id;
      assert Note(id, w.table[id].rowid) in s.seqs && w.tickets[id] == ticket;
    }
  }

  lemma NoteStands(w: World, server: nat, n: Note, ticket: nat)
    requires Books(w) && server in w.alive && server in w.servers && n in w.servers[server].seqs
    requires n.id in w.tickets && w.tickets[n.id] == ticket && w.calls[ticket].server == server
    ensures ticket in Unfinished(w, server) && ticket !in w.lost
  {
    var s := w.servers[server];
    assert ServerOk(w.table, s, server) && CallOk(w, ticket);
    assert HasSeq(s.seqs, n.id);
    assert RunningHere(w.table, n.id, n.rowid, server);
  }

  /** A live server keeps as many notes as it has unfinished writing calls not lost. */
  lemma NotesCount(w: World, server: nat)
    requires Books(w) && server in w.alive
    ensures server in w.servers && |w.servers[server].seqs| == |Unfinished(w, server) - w.lost|
  {
    var seqs := w.servers[server].seqs;
    NotedIsUnfinished(w, server, 0);
    assert ServerOk(w.table, w.servers[server], server);
    TicketsCount(w, seqs);
    forall ticket ensures ticket in Tickets(w, seqs) <==> ticket in Unfinished(w, server) - w.lost {
      NotedIsUnfinished(w, server, ticket);
    }
    assert Tickets(w, seqs) == Unfinished(w, server) - w.lost;
  }

  // ── how the notes and the lost change ──

  lemma {:induction false} ForgottenIsShorter(seqs: seq<Note>, id: OpId)
    ensures |Forgotten(seqs, id)| <= |seqs|
    decreases |seqs|
  {
    if seqs != [] {
      ForgottenIsShorter(seqs[1..], id);
    }
  }

  lemma SeqsNext(w: World, e: Event, server: nat)
    requires Enabled(w, e) && server in w.servers
    ensures var w' := Next(w, e);
      && server in w'.servers && MaxLen(w', server) == MaxLen(w, server)
      && var seqs, seqs' := w.servers[server].seqs, w'.servers[server].seqs;
         || seqs' == seqs
         || (e.Finish? && seqs' == Forgotten(seqs, w.calls[e.ticket].record.id))
         || (BeginsWrite(e, server) && e.id in w'.table && seqs' == Noted(seqs, e.id, w'.table[e.id].rowid, MaxLen(w, server)))
    ensures BeginsWrite(e, server) ==> var w' := Next(w, e);
      e.id in w'.table && w'.servers[server].seqs == Noted(w.servers[server].seqs, e.id, w'.table[e.id].rowid, MaxLen(w, server))
  {
  }

  ghost predicate Short(w: World) {
    forall server | server in w.servers :: |w.servers[server].seqs| <= MaxLen(w, server) && MaxLen(w, server) >= 1
  }

  lemma NextKeepsShort(w: World, e: Event)
    requires Short(w) && Enabled(w, e)
    ensures Short(Next(w, e))
  {
    hide Next;
    var w' := Next(w, e);
    forall server | server in w'.servers ensures |w'.servers[server].seqs| <= MaxLen(w', server) && MaxLen(w', server) >= 1 {
      if server in w.servers {
        SeqsNext(w, e, server);
        if e.Finish? {
          ForgottenIsShorter(w.servers[server].seqs, w.calls[e.ticket].record.id);
        } else if e.Begin? {
          ForgottenIsShorter(w.servers[server].seqs, e.id);
        }
      } else {
        NewServer(w, e, server);
      }
    }
  }

  lemma NewServer(w: World, e: Event, server: nat)
    requires Enabled(w, e) && server !in w.servers && server in Next(w, e).servers
    ensures e.Open? && e.server == server && Next(w, e).servers[server] == Empty(server, e.maxlen) && e.maxlen >= 1
  {
  }

  lemma LostNext(w: World, e: Event)
    requires Enabled(w, e)
    ensures w.lost <= Next(w, e).lost
    ensures Next(w, e).lost == if e.Begin? && BeginsWrite(e, e.server) then w.lost + Dropped(w, w.servers[e.server], e.id) else w.lost
  {
  }

  lemma CallsNext(w: World, e: Event, ticket: nat)
    requires Enabled(w, e) && ticket in w.calls
    ensures var w' := Next(w, e);
      && ticket in w'.calls && w'.calls[ticket].server == w.calls[ticket].server && w'.calls[ticket].record == w.calls[ticket].record
      && (!e.Finish? ==> w'.calls[ticket].ended == w.calls[ticket].ended)
  {
  }

  lemma BegunCall(w: World, e: Event, server: nat)
    requires Enabled(w, e) && BeginsWrite(e, server)
    ensures var w' := Next(w, e);
      && e.ticket !in w.calls && server in w'.alive && w'.alive == w.alive
      && w'.calls == w.calls[e.ticket := Call(server, BegunRecord(e), true, None)]
      && w'.tickets == w.tickets[e.id := e.ticket]
  {
  }

  /** A call is lost exactly at a begin, of its server, that finds `maxlen` unfinished writing calls noted
      and it the first of them. */
  lemma LostAtBegin(w: World, e: Event, ticket: nat)
    requires Books(w) && Short(w) && Enabled(w, e) && ticket !in w.lost
    ensures ticket in Next(w, e).lost <==>
      && e.Begin? && BeginsWrite(e, e.server) && e.server in w.alive && e.server in w.servers
      && |Unfinished(w, e.server) - w.lost| == MaxLen(w, e.server)
      && w.servers[e.server].seqs[0].id in w.tickets && w.tickets[w.servers[e.server].seqs[0].id] == ticket
  {
    hide Next;
    LostNext(w, e);
    if e.Begin? && BeginsWrite(e, e.server) {
      var s := w.servers[e.server];
      NotesCount(w, e.server);
      NotedIsUnfinished(w, e.server, ticket);
      NeverMentioned(w, e.id);
      assert !HasSeq(s.seqs, e.id);
      ForgottenAbsent(s.seqs, e.id);
    }
  }

  // ── too many unfinished ──

  lemma {:induction false} RunStaysShort(worlds: seq<World>, events: seq<Event>, i: nat)
    requires IsRun(worlds, events) && i < |worlds|
    ensures Short(worlds[i])
  {
    hide Next, Enabled;
    if i > 0 {
      RunStaysShort(worlds, events, i - 1);
      NextKeepsShort(worlds[i - 1], events[i - 1]);
    }
  }

  ghost predicate LostOne(w: World, server: nat) {
    exists ticket :: ticket in w.lost && ticket in w.calls && w.calls[ticket].server == server
  }

  /** At some moment up to `i` the live server had more than `maxlen` unfinished writing calls. */
  ghost predicate TooMany(worlds: seq<World>, i: nat, server: nat)
    requires i < |worlds|
  {
    exists k :: 0 <= k <= i && server in worlds[k].alive && server in worlds[k].servers
                && |Unfinished(worlds[k], server)| > MaxLen(worlds[k], server)
  }

  lemma {:induction false} LostStays(worlds: seq<World>, events: seq<Event>, k: nat, i: nat, ticket: nat)
    requires IsRun(worlds, events) && k <= i < |worlds| && ticket in worlds[k].lost && ticket in worlds[k].calls
    ensures ticket in worlds[i].lost && ticket in worlds[i].calls && worlds[i].calls[ticket].server == worlds[k].calls[ticket].server
    decreases i
  {
    hide Next, Enabled;
    if k < i {
      LostStays(worlds, events, k, i - 1, ticket);
      LostNext(worlds[i - 1], events[i - 1]);
      CallsNext(worlds[i - 1], events[i - 1], ticket);
    }
  }

  /** A server with more unfinished writing calls than notes has lost one. */
  lemma TooManyLoses(w: World, server: nat)
    requires Books(w) && Short(w) && server in w.alive && server in w.servers && |Unfinished(w, server)| > MaxLen(w, server)
    ensures LostOne(w, server)
  {
    NotesCount(w, server);
    var unfinished := Unfinished(w, server);
    assert unfinished == (unfinished - w.lost) + unfinished * w.lost;
    assert unfinished * w.lost != {};
    LostWasCall(w);
    var ticket :| ticket in unfinished * w.lost;
  }

  /** And losing one leaves more than `maxlen`. */
  lemma LosingIsTooMany(w: World, e: Event, ticket: nat)
    requires Books(w) && Short(w) && Enabled(w, e) && ticket !in w.lost && ticket in Next(w, e).lost
    ensures var w' := Next(w, e);
      && e.Begin? && ticket in w.calls && w.calls[ticket].server == e.server && e.server in w'.alive && e.server in w'.servers
      && |Unfinished(w', e.server)| > MaxLen(w', e.server)
  {
    hide Next, Unfinished;
    LostAtBegin(w, e, ticket);
    FirstNoted(w, e.server, ticket);
    BegunCall(w, e, e.server);
    UnfinishedGrows(w, e);
    SeqsNext(w, e, e.server);
    hide *;
    var unfinished := Unfinished(w, e.server);
    AtMostAsMany(unfinished - w.lost, unfinished);
    assert |unfinished + {e.ticket}| == |unfinished| + 1;
  }

  lemma FirstNoted(w: World, server: nat, ticket: nat)
    requires Books(w) && Short(w) && server in w.alive && server in w.servers
    requires |Unfinished(w, server) - w.lost| == MaxLen(w, server)
    requires w.servers[server].seqs != [] ==> w.servers[server].seqs[0].id in w.tickets && w.tickets[w.servers[server].seqs[0].id] == ticket
    ensures ticket in w.calls && w.calls[ticket].server == server
  {
    NotesCount(w, server);
    NotedIsUnfinished(w, server, ticket);
    assert w.servers[server].seqs[0] in w.servers[server].seqs;
  }

  lemma UnfinishedGrows(w: World, e: Event)
    requires Enabled(w, e) && e.Begin? && BeginsWrite(e, e.server)
    ensures Unfinished(Next(w, e), e.server) == Unfinished(w, e.server) + {e.ticket} && e.ticket !in Unfinished(w, e.server)
  {
    BegunCall(w, e, e.server);
    hide Next;
    assert BegunRecord(e).id == e.id && BegunRecord(e).request == e.request;
  }

  lemma AtMostAsMany(a: set<nat>, b: set<nat>)
    requires a <= b
    ensures |a| <= |b|
  {
    assert |b - a| == |b| - |a|;
  }

  /** A server has lost one of its calls' row numbers exactly if at some moment more than `maxlen` of its
      writing calls were unfinished. */
  lemma {:induction false} LostIffTooMany(worlds: seq<World>, events: seq<Event>, i: nat, server: nat)
    requires IsRun(worlds, events) && i < |worlds|
    ensures LostOne(worlds[i], server) <==> TooMany(worlds, i, server)
  {
    hide Next, Enabled, Books, Short, Unfinished;
    if TooMany(worlds, i, server) {
      var k :| 0 <= k <= i && server in worlds[k].alive && server in worlds[k].servers
               && |Unfinished(worlds[k], server)| > MaxLen(worlds[k], server);
      BooksAlwaysKept(worlds, events, k);
      RunStaysShort(worlds, events, k);
      TooManyLoses(worlds[k], server);
      var ticket :| ticket in worlds[k].lost && ticket in worlds[k].calls && worlds[k].calls[ticket].server == server;
      LostStays(worlds, events, k, i, ticket);
    }
    if LostOne(worlds[i], server) && i > 0 {
      LostIffTooMany(worlds, events, i - 1, server);
      var w, e := worlds[i - 1], events[i - 1];
      var ticket :| ticket in worlds[i].lost && ticket in worlds[i].calls && worlds[i].calls[ticket].server == server;
      BooksAlwaysKept(worlds, events, i - 1);
      RunStaysShort(worlds, events, i - 1);
      LostWasCall(w);
      if ticket in w.lost {
        CallsNext(w, e, ticket);
        assert LostOne(w, server);
      } else {
        LosingIsTooMany(w, e, ticket);
        CallsNext(w, e, ticket);
      }
    }
  }

  lemma LostWasCall(w: World)
    requires Books(w)
    ensures forall ticket | ticket in w.lost :: ticket in w.calls
  {
  }

  /** So after a flush, of a server that at no moment had more than `maxlen` of its writing calls
      unfinished, every finished call has its row with its own final state, or was retired. */
  lemma FewUnfinishedAreFinal(worlds: seq<World>, events: seq<Event>, i: nat, ticket: nat)
    requires IsRun(worlds, events) && i < |events| && events[i].Flush?
    requires ticket in worlds[i].calls && worlds[i].calls[ticket].server == events[i].server
    requires worlds[i].calls[ticket].record.id.Minted? && worlds[i].calls[ticket].ended.Some?
    requires !TooMany(worlds, i + 1, events[i].server)
    ensures var w := worlds[i + 1];
      var call := w.calls[ticket];
      var id := call.record.id;
      if id !in w.table then id in w.retired
      else w.table[id].owner == call.server && w.table[id].request == call.record.request && w.table[id].state == call.ended.value
  {
    FlushedRowsAreFinal(worlds, events, i, ticket);
    LostIffTooMany(worlds, events, i + 1, events[i].server);
    assert worlds[i + 1].calls == worlds[i].calls;
  }

  // ── the one lost is the oldest ──

  /** Call `a` had begun, by `worlds[i]`, when `b` had not. */
  ghost predicate BegunBefore(worlds: seq<World>, i: nat, a: nat, b: nat)
    requires i < |worlds|
  {
    exists k :: 0 <= k <= i && a in worlds[k].calls && b !in worlds[k].calls
  }

  lemma BegunBeforeStays(worlds: seq<World>, i: nat, a: nat, b: nat)
    requires 0 < i < |worlds| && BegunBefore(worlds, i - 1, a, b)
    ensures BegunBefore(worlds, i, a, b)
  {
    var k :| 0 <= k <= i - 1 && a in worlds[k].calls && b !in worlds[k].calls;
  }

  lemma {:induction false} CallsStay(worlds: seq<World>, events: seq<Event>, k: nat, i: nat, ticket: nat)
    requires IsRun(worlds, events) && k <= i < |worlds| && ticket in worlds[k].calls
    ensures ticket in worlds[i].calls
    decreases i
  {
    hide Next, Enabled;
    if k < i {
      CallsStay(worlds, events, k, i - 1, ticket);
      CallsNext(worlds[i - 1], events[i - 1], ticket);
    }
  }

  lemma NotBothBefore(worlds: seq<World>, events: seq<Event>, i: nat, a: nat, b: nat)
    requires IsRun(worlds, events) && i < |worlds| && BegunBefore(worlds, i, a, b)
    ensures !BegunBefore(worlds, i, b, a)
  {
    hide Next, Enabled;
    if BegunBefore(worlds, i, b, a) {
      var k :| 0 <= k <= i && a in worlds[k].calls && b !in worlds[k].calls;
      var m :| 0 <= m <= i && b in worlds[m].calls && a !in worlds[m].calls;
      if k <= m {
        CallsStay(worlds, events, k, m, a);
      } else {
        CallsStay(worlds, events, m, k, b);
      }
    }
  }

  ghost predicate InOrder(worlds: seq<World>, i: nat, seqs: seq<Note>)
    requires i < |worlds|
  {
    && (forall n | n in seqs :: n.id in worlds[i].tickets)
    && forall x, y | 0 <= x < y < |seqs| :: BegunBefore(worlds, i, worlds[i].tickets[seqs[x].id], worlds[i].tickets[seqs[y].id])
  }

  lemma ForgottenFirst(seqs: seq<Note>, id: OpId)
    requires seqs != []
    ensures Forgotten(seqs, id) == if seqs[0].id == id then Forgotten(seqs[1..], id) else [seqs[0]] + Forgotten(seqs[1..], id)
  {
  }

  lemma WhereIn(seqs: seq<Note>, id: OpId, y: nat) returns (y': nat)
    requires y < |Forgotten(seqs, id)|
    ensures y' < |seqs| && seqs[y'] == Forgotten(seqs, id)[y]
  {
    assert Forgotten(seqs, id)[y] in Forgotten(seqs, id);
    y' :| 0 <= y' < |seqs| && seqs[y'] == Forgotten(seqs, id)[y];
  }

  lemma {:induction false} ForgottenKeepsOrder(seqs: seq<Note>, id: OpId, x: nat, y: nat) returns (x': nat, y': nat)
    requires x < y < |Forgotten(seqs, id)|
    ensures x' < y' < |seqs| && seqs[x'] == Forgotten(seqs, id)[x] && seqs[y'] == Forgotten(seqs, id)[y]
    decreases |seqs|
  {
    hide Forgotten;
    if seqs == [] {
      assert Forgotten(seqs, id) == [] by {
        NoneKept(id);
      }
    } else {
      ForgottenFirst(seqs, id);
      if seqs[0].id == id {
        x', y' := ForgottenKeepsOrder(seqs[1..], id, x, y);
      } else if x > 0 {
        x', y' := ForgottenKeepsOrder(seqs[1..], id, x - 1, y - 1);
      } else {
        y' := WhereIn(seqs[1..], id, y - 1);
      }
      x', y' := if x > 0 || seqs[0].id == id then x' + 1 else 0, y' + 1;
    }
  }

  lemma NoneKept(id: OpId)
    ensures Forgotten([], id) == []
  {
  }

  lemma ForgottenInOrder(worlds: seq<World>, i: nat, seqs: seq<Note>, id: OpId)
    requires i < |worlds| && InOrder(worlds, i, seqs)
    ensures InOrder(worlds, i, Forgotten(seqs, id))
  {
    forall x, y | 0 <= x < y < |Forgotten(seqs, id)|
      ensures BegunBefore(worlds, i, worlds[i].tickets[Forgotten(seqs, id)[x].id], worlds[i].tickets[Forgotten(seqs, id)[y].id])
    {
      var x', y' := ForgottenKeepsOrder(seqs, id, x, y);
    }
  }

  lemma TicketsNext(w: World, e: Event, id: OpId)
    requires Enabled(w, e) && id in w.tickets
    ensures id in Next(w, e).tickets && Next(w, e).tickets[id] == w.tickets[id]
  {
  }

  lemma InOrderStays(worlds: seq<World>, events: seq<Event>, i: nat, seqs: seq<Note>)
    requires IsRun(worlds, events) && 0 < i < |worlds| && InOrder(worlds, i - 1, seqs)
    ensures InOrder(worlds, i, seqs)
  {
    hide Next, Enabled, BegunBefore;
    forall n | n in seqs ensures n.id in worlds[i].tickets && worlds[i].tickets[n.id] == worlds[i - 1].tickets[n.id] {
      TicketsNext(worlds[i - 1], events[i - 1], n.id);
    }
    forall x, y | 0 <= x < y < |seqs|
      ensures BegunBefore(worlds, i, worlds[i].tickets[seqs[x].id], worlds[i].tickets[seqs[y].id])
    {
      BegunBeforeStays(worlds, i, worlds[i - 1].tickets[seqs[x].id], worlds[i - 1].tickets[seqs[y].id]);
    }
  }

  lemma NotedInOrder(worlds: seq<World>, events: seq<Event>, i: nat, seqs: seq<Note>, rowid: int)
    requires IsRun(worlds, events) && 0 < i < |worlds| && InOrder(worlds, i - 1, seqs) && Registered(worlds[i - 1])
    requires var e := events[i - 1]; e.Begin? && BeginsWrite(e, e.server)
    ensures InOrder(worlds, i, seqs + [Note(events[i - 1].id, rowid)])
  {
    hide Next, Enabled, BegunBefore;
    var w, e, w' := worlds[i - 1], events[i - 1], worlds[i];
    BegunCall(w, e, e.server);
    InOrderStays(worlds, events, i, seqs);
    var all := seqs + [Note(e.id, rowid)];
    forall x, y | 0 <= x < y < |all| ensures BegunBefore(worlds, i, w'.tickets[all[x].id], w'.tickets[all[y].id]) {
      if y == |seqs| {
        TicketsNext(w, e, seqs[x].id);
        BeganBefore(worlds, i, w.tickets[seqs[x].id], e.ticket);
      }
    }
  }

  lemma BeganBefore(worlds: seq<World>, i: nat, a: nat, b: nat)
    requires 0 < i < |worlds| && a in worlds[i - 1].calls && b !in worlds[i - 1].calls
    ensures BegunBefore(worlds, i, a, b)
  {
  }

  lemma TailInOrder(worlds: seq<World>, i: nat, seqs: seq<Note>)
    requires i < |worlds| && InOrder(worlds, i, seqs) && seqs != []
    ensures InOrder(worlds, i, seqs[1..])
  {
    hide BegunBefore;
    forall x, y | 0 <= x < y < |seqs[1..]|
      ensures BegunBefore(worlds, i, worlds[i].tickets[seqs[1..][x].id], worlds[i].tickets[seqs[1..][y].id])
    {
      assert seqs[x + 1] == seqs[1..][x] && seqs[y + 1] == seqs[1..][y];
    }
  }

  /** A live server's notes stand in the order their calls began. */
  lemma {:induction false} NotesInOrder(worlds: seq<World>, events: seq<Event>, i: nat, server: nat)
    requires IsRun(worlds, events) && i < |worlds| && server in worlds[i].alive && server in worlds[i].servers
    ensures InOrder(worlds, i, worlds[i].servers[server].seqs)
  {
    hide Next, Enabled, InOrder, Books;
    if i > 0 {
      var w, e := worlds[i - 1], events[i - 1];
      if server in w.servers {
        AliveBefore(w, e, server);
        NotesInOrder(worlds, events, i - 1, server);
        var seqs := w.servers[server].seqs;
        SeqsNext(w, e, server);
        if BeginsWrite(e, server) {
          BooksAlwaysKept(worlds, events, i - 1);
          ForgottenInOrder(worlds, i - 1, seqs, e.id);
          NotedInOrder(worlds, events, i, Forgotten(seqs, e.id), worlds[i].table[e.id].rowid) by {
            BooksHave(w);
          }
          var all := Forgotten(seqs, e.id) + [Note(e.id, worlds[i].table[e.id].rowid)];
          assert InOrder(worlds, i, all);
          TailInOrder(worlds, i, all);
        } else {
          InOrderStays(worlds, events, i, seqs);
          if e.Finish? {
            FinishedCall(w, e);
            ForgottenInOrder(worlds, i, seqs, w.calls[e.ticket].record.id);
          }
        }
      } else {
        NewServer(w, e, server);
        EmptyInOrder(worlds, i);
      }
    } else {
      assert false;
    }
  }

  lemma BooksHave(w: World)
    requires Books(w)
    ensures Registered(w)
  {
  }

  lemma EmptyInOrder(worlds: seq<World>, i: nat)
    requires i < |worlds|
    ensures InOrder(worlds, i, [])
  {
  }

  lemma FinishedCall(w: World, e: Event)
    requires Enabled(w, e) && e.Finish?
    ensures e.ticket in w.calls
  {
  }

  lemma AliveBefore(w: World, e: Event, server: nat)
    requires Enabled(w, e) && server in w.servers && server in Next(w, e).alive
    ensures server in w.alive
  {
  }

  /** `a`, of the server's noted calls, began before every other. */
  ghost predicate Oldest(worlds: seq<World>, i: nat, server: nat, ticket: nat)
    requires i < |worlds|
  {
    var noted := Unfinished(worlds[i], server) - worlds[i].lost;
    ticket in noted && forall other | other in noted && other != ticket :: BegunBefore(worlds, i, ticket, other)
  }

  /** The first note is the oldest call's. */
  lemma FirstIsOldest(worlds: seq<World>, events: seq<Event>, i: nat, server: nat, ticket: nat)
    requires IsRun(worlds, events) && i < |worlds| && server in worlds[i].alive && server in worlds[i].servers
    requires worlds[i].servers[server].seqs != []
    ensures var w := worlds[i]; var first := w.servers[server].seqs[0].id;
      first in w.tickets && (w.tickets[first] == ticket <==> Oldest(worlds, i, server, ticket))
  {
    hide Next, Enabled, Unfinished, BegunBefore, Books;
    var w := worlds[i];
    var seqs := w.servers[server].seqs;
    BooksAlwaysKept(worlds, events, i);
    NotesInOrder(worlds, events, i, server);
    assert seqs[0] in seqs;
    var first := w.tickets[seqs[0].id];
    NotedIsUnfinished(w, server, first);
    forall other | other in Unfinished(w, server) - w.lost && other != first ensures BegunBefore(worlds, i, first, other) {
      NotedIsUnfinished(w, server, other);
      var n :| n in seqs && w.tickets[n.id] == other;
      var y :| 0 <= y < |seqs| && seqs[y] == n;
      assert y > 0;
    }
    assert Oldest(worlds, i, server, first);
    if Oldest(worlds, i, server, ticket) && ticket != first {
      NotBothBefore(worlds, events, i, first, ticket);
    }
  }

  /** A call loses its number exactly at a begin that finds `maxlen` noted calls of its server's
      unfinished, it the oldest of them. */
  lemma OldestIsLost(worlds: seq<World>, events: seq<Event>, i: nat, ticket: nat)
    requires IsRun(worlds, events) && i < |events| && ticket !in worlds[i].lost
    ensures var w, e := worlds[i], events[i];
      ticket in worlds[i + 1].lost <==>
        && e.Begin? && BeginsWrite(e, e.server) && e.server in w.servers
        && |Unfinished(w, e.server) - w.lost| == MaxLen(w, e.server) && Oldest(worlds, i, e.server, ticket)
  {
    hide Next, Unfinished, Oldest, Books;
    var w, e := worlds[i], events[i];
    BooksAlwaysKept(worlds, events, i);
    RunStaysShort(worlds, events, i);
    LostAtBegin(w, e, ticket);
    if e.Begin? && BeginsWrite(e, e.server) && |Unfinished(w, e.server) - w.lost| == MaxLen(w, e.server) {
      NotesCount(w, e.server);
      FirstIsOldest(worlds, events, i, e.server, ticket);
    }
  }

  // ── a call that lost its number ──

  /** One server that keeps one number begins two writing calls, and the first of them commits. */
  function TwoAtOnce(request: Request): seq<Event> {
    [ Event.Open(0, 1, {}, {0}), Begin(0, Minted(1), request, 1, {0}), Begin(0, Minted(2), request, 2, {0}),
      Finish(1, Committed, None, true), Event.Flush(0) ]
  }

  lemma RetiredNext(w: World, e: Event)
    requires Enabled(w, e) && (e.Open? ==> e.expired == {})
    ensures Next(w, e).retired == w.retired
  {
  }

  lemma Opens(w: World, e: Event)
    requires Initial(w) && e == Event.Open(0, 1, {}, {0})
    ensures Enabled(w, e) && var w' := Next(w, e);
      && w'.alive == {0} && 0 in w'.servers && w'.servers[0] == Empty(0, 1)
      && w'.calls == map[] && w'.tickets == map[] && w'.lost == {}
  {
  }

  lemma Finishes(w: World, e: Event, server: nat)
    requires Enabled(w, e) && (e.Finish? || e.Flush?) && server in w.servers
    ensures var w' := Next(w, e);
      && w'.alive == w.alive && server in w'.servers && w'.lost == w.lost
      && (e.Flush? ==> w'.calls == w.calls)
      && (e.Finish? ==> e.ticket in w'.calls && w'.calls[e.ticket].ended == Some(e.state))
  {
  }

  lemma FirstBegun(request: Request) returns (worlds: seq<World>)
    requires !request.readOnly
    ensures IsRun(worlds, TwoAtOnce(request)[..2]) && Unfinished(worlds[2], 0) - worlds[2].lost == {1}
    ensures var w := worlds[2];
      && 0 in w.alive && w.alive == {0} && 0 in w.servers && MaxLen(w, 0) == 1
      && w.calls == map[1 := Call(0, Record(1, Minted(1), request, Running), true, None)] && w.tickets == map[Minted(1) := 1]
  {
    var events := TwoAtOnce(request);
    var w0 := World(Client(""), map[], map[], {}, map[], map[], {}, {}, Tally(0, 0, 0, 0));
    Opens(w0, events[0]);
    var w1 := Next(w0, events[0]);
    hide Next;
    BegunCall(w1, events[1], 0);
    var w2 := Next(w1, events[1]);
    SeqsNext(w1, events[1], 0);
    LostNext(w1, events[1]);
    assert Dropped(w1, w1.servers[0], Minted(1)) == {};
    worlds := [w0, w1, w2];
    assert BegunRecord(events[1]) == Record(1, Minted(1), request, Running);
  }

  lemma BothBegun(request: Request) returns (worlds: seq<World>)
    requires !request.readOnly
    ensures IsRun(worlds, TwoAtOnce(request)[..3]) && 1 in worlds[3].lost
    ensures var w := worlds[3];
      && 0 in w.alive && 0 in w.servers && 1 in w.calls && w.calls[1] == Call(0, Record(1, Minted(1), request, Running), true, None)
  {
    hide Next, Unfinished;
    var events := TwoAtOnce(request);
    worlds := FirstBegun(request);
    var w2 := worlds[2];
    BegunCall(w2, events[2], 0);
    SeqsNext(w2, events[2], 0);
    worlds := worlds + [Next(w2, events[2])];
    OldestIsLost(worlds, events[..3], 2, 1);
  }

  /** The first one's row says `running`, though it committed and the queue was flushed. */
  lemma LostStaysRunning(request: Request) returns (worlds: seq<World>)
    requires !request.readOnly
    ensures IsRun(worlds, TwoAtOnce(request)) && 1 in worlds[5].calls && worlds[5].calls[1].ended == Some(Committed)
    ensures Minted(1) in worlds[5].table && worlds[5].table[Minted(1)].state == Running
  {
    var events := TwoAtOnce(request);
    worlds := BothBegun(request);
    hide Next;
    var w3 := worlds[3];
    var w4 := Next(w3, events[3]);
    Finishes(w3, events[3], 0);
    CallsNext(w3, events[3], 1);
    Finishes(w4, events[4], 0);
    worlds := worlds + [w4, Next(w4, events[4])];
    NothingRetired(worlds, events, 5);
    FlushedRowsAreFinal(worlds, events, 4, 1);
  }

  lemma {:induction false} NothingRetired(worlds: seq<World>, events: seq<Event>, i: nat)
    requires IsRun(worlds, events) && i < |worlds| && forall k | 0 <= k < |events| :: events[k].Open? ==> events[k].expired == {}
    ensures worlds[i].retired == {}
  {
    hide Next, Enabled;
    if i > 0 {
      NothingRetired(worlds, events, i - 1);
      RetiredNext(worlds[i - 1], events[i - 1]);
    }
  }
}
