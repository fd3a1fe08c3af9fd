/** What a write-behind file says: after any flush, and at any moment in between. */
module JournalWriteBehind {

  import opened Wrappers
  import opened Journal
  import opened JournalRuns
  import opened JournalOnce

  /** After any flush every finished call of the server has its one row, with its own final state -
      unless its retention ended; or, for a writing call, its note was pushed out by more than
      `maxlen` unfinished ones, when its row stays `running`. */
  lemma FlushedRowsAreFinal(worlds: seq<World>, events: seq<Event>, i: nat, ticket: nat)
    requires IsRun(worlds, events) && i < |events| && events[i].Flush?
    requires ticket in worlds[i].calls && worlds[i].calls[ticket].server == events[i].server
    requires worlds[i].calls[ticket].record.id.Minted? && worlds[i].calls[ticket].ended.Some?
    ensures var w := worlds[i + 1];
      var call := w.calls[ticket];
      var id := call.record.id;
      if id !in w.table then id in w.retired
      else && w.table[id].owner == call.server && w.table[id].request == call.record.request
           && w.table[id].state == (if ticket in w.lost then Running else call.ended.value)
  {
    BooksAlwaysKept(worlds, events, i + 1);
    assert CallOk(worlds[i + 1], ticket);
    assert worlds[i + 1].calls == worlds[i].calls;
  }

  /** At every moment - kills, late flushes, sweeps and all - a server's own row that says
      `committed` is one whose call finished committed; and one that says anything else final says
      what its call finished as, or that its server died while it ran. */
  lemma FinalRowsAreTrue(worlds: seq<World>, events: seq<Event>, i: nat, id: OpId)
    requires IsRun(worlds, events) && i < |worlds| && id.Minted? && id in worlds[i].table
    ensures var w := worlds[i];
      id in w.tickets && w.tickets[id] in w.calls &&
      var call := w.calls[w.tickets[id]];
      && w.table[id].owner == call.server && w.table[id].request == call.record.request
      && (w.table[id].state == Committed ==> call.ended == Some(Committed))
      && (w.table[id].state != Running ==>
            || Some(w.table[id].state) == call.ended
            || (w.table[id].state == UnknownCommit && call.server !in w.alive && !call.record.request.readOnly))
  {
    BooksAlwaysKept(worlds, events, i);
    var w := worlds[i];
    var ticket := w.tickets[id];
    assert CallOk(w, ticket);
    var call := w.calls[ticket];
    if call.server in w.alive {
      var s := w.servers[call.server];
      assert ServerOk(w.table, s, call.server);
      if Queued(s.queue, id).Some? {
        var i :| 0 <= i < |s.queue| && s.queue[i] == Queued(s.queue, id).value;
        assert StatementOk(w.table, s.queue[i], call.server);
      }
    }
  }

  /** A kill loses no row but a read's: a writing call's row, once its begin returned, is there until
      it is retired. */
  lemma KillLosesOnlyReads(worlds: seq<World>, events: seq<Event>, i: nat, ticket: nat)
    requires IsRun(worlds, events) && i < |worlds| && ticket in worlds[i].calls
    requires worlds[i].calls[ticket].record.id.Minted? && !worlds[i].calls[ticket].record.request.readOnly
    ensures var w := worlds[i];
      var id := w.calls[ticket].record.id;
      id in w.table || id in w.retired
  {
    BooksAlwaysKept(worlds, events, i);
    var w := worlds[i];
    assert CallOk(w, ticket);
    var call := w.calls[ticket];
    if call.server in w.alive {
      var s := w.servers[call.server];
      assert ServerOk(w.table, s, call.server);
      if Queued(s.queue, call.record.id).Some? {
        var i :| 0 <= i < |s.queue| && s.queue[i] == Queued(s.queue, call.record.id).value;
        assert StatementOk(w.table, s.queue[i], call.server);
      }
    }
  }

  // ── a client's row ──

  /** A call under the watched id, by the row's owner, that ended as the row says. */
  ghost predicate EndedSo(w: World, row: Row, ticket: nat) {
    && ticket in w.calls && w.calls[ticket].record.id == w.watch
    && w.calls[ticket].server == row.owner && w.calls[ticket].ended == Some(row.state)
  }

  ghost predicate WatchedTrue(w: World) {
    w.watch in w.table && Replayable(w.table[w.watch].state) ==> exists ticket :: EndedSo(w, w.table[w.watch], ticket)
  }

  /** The row as it was, or as no answer is replayed from it, and every call that had ended as it was. */
  lemma RowStaysTrue(w: World, w': World)
    requires WatchedTrue(w) && w'.watch == w.watch
    requires forall ticket | ticket in w.calls && w.calls[ticket].ended.Some? ::
      && ticket in w'.calls && w'.calls[ticket].record == w.calls[ticket].record
      && w'.calls[ticket].server == w.calls[ticket].server && w'.calls[ticket].ended == w.calls[ticket].ended
    requires w'.watch in w'.table && Replayable(w'.table[w'.watch].state) ==> w.watch in w.table && w'.table[w'.watch] == w.table[w.watch]
    ensures WatchedTrue(w')
  {
    if w'.watch in w'.table && Replayable(w'.table[w'.watch].state) {
      var ticket :| EndedSo(w, w.table[w.watch], ticket);
      assert EndedSo(w', w'.table[w'.watch], ticket);
    }
  }

  lemma NextKeepsTrue(w: World, e: Event)
    requires Books(w) && Enabled(w, e) && w.watch.Client? && WatchedTrue(w)
    ensures WatchedTrue(Next(w, e))
  {
    match e
    case Begin(_, _, _, _, _) => BeginKeepsTrue(w, e);
    case Finish(_, _, _, _) => FinishKeepsTrue(w, e);
    case Flush(server) =>
      FlushLeavesClients(w, server, w.watch);
      FlushedCalls(w, server);
      RowStaysTrue(w, Next(w, e));
    case _ => RowStaysTrue(w, Next(w, e));
  }

  lemma {:induction false} FlushedCalls(w: World, server: nat)
    requires Books(w) && server in w.alive
    ensures Flushed(w, server).calls == w.calls && Flushed(w, server).watch == w.watch
  {
  }

  lemma BeginKeepsTrue(w: World, e: Event)
    requires Books(w) && e.Begin? && Enabled(w, e) && w.watch.Client? && WatchedTrue(w)
    ensures WatchedTrue(Next(w, e))
  {
    RowOfBegin(w, e);
    RowAfterLookup(w, e);
    BeginCalls(w, e);
    hide Next, Books, Replayable;
    RowStaysTrue(w, Next(w, e));
  }

  lemma BeginCalls(w: World, e: Event)
    requires e.Begin? && Enabled(w, e)
    ensures var w' := Next(w, e);
      && w'.watch == w.watch
      && w'.calls == (if Admits(w, e) then w.calls[e.ticket := Call(e.server, BegunRecord(e), true, None)] else w.calls)
      && e.ticket !in w.calls
  {
  }

  lemma RowAfterLookup(w: World, e: Event)
    requires Books(w) && e.Begin? && Enabled(w, e)
    ensures var row := AfterLookup(w, e).table;
      && (w.watch in row <==> w.watch in w.table)
      && (w.watch in row && Replayable(row[w.watch].state) ==> row[w.watch] == w.table[w.watch])
    ensures !Replayable(Running)
  {
  }

  lemma FinishKeepsTrue(w: World, e: Event)
    requires Books(w) && e.Finish? && Enabled(w, e) && w.watch.Client? && WatchedTrue(w)
    ensures WatchedTrue(Next(w, e))
  {
    RowOfFinish(w, e);
    FinishCalls(w, e);
    hide Next, Books, Replayable;
    var w', call := Next(w, e), w.calls[e.ticket];
    if w.watch in w.table && call.record.id == w.watch && w.table[w.watch].owner == call.server {
      assert EndedSo(w', w'.table[w'.watch], e.ticket);
    } else {
      RowStaysTrue(w, w');
    }
  }

  lemma FinishCalls(w: World, e: Event)
    requires e.Finish? && Enabled(w, e)
    ensures var w', call := Next(w, e), w.calls[e.ticket];
      && w'.watch == w.watch && call.ended.None?
      && w'.calls == w.calls[e.ticket := call.(ended := Some(e.state), worker := call.worker && e.state != Cancelled)]
  {
  }

  /** At every moment, with any servers, a client's row carries an answer's state only if a call under
      its id, by the server the row names, ended in that state. */
  lemma {:induction false} ClientRowsAreTrue(worlds: seq<World>, events: seq<Event>, i: nat)
    requires IsRun(worlds, events) && i < |worlds|
    ensures var w := worlds[i];
      && w.watch == worlds[0].watch
      && (w.watch in w.table && Replayable(w.table[w.watch].state) ==>
            exists ticket :: EndedSo(w, w.table[w.watch], ticket))
  {
    hide Books, MemoriesOk, RoomOk, Next, Enabled, Replayable;
    AtMostOnce(worlds, events, i);
    if i > 0 {
      ClientRowsAreTrue(worlds, events, i - 1);
      BooksAlwaysKept(worlds, events, i - 1);
      AtMostOnce(worlds, events, i - 1);
      NextKeepsTrue(worlds[i - 1], events[i - 1]);
      WatchStays(worlds[i - 1], events[i - 1]);
    }
  }

  lemma WatchStays(w: World, e: Event)
    requires Enabled(w, e)
    ensures Next(w, e).watch == w.watch
  {
  }
}
