/** What a succession of servers - one alive at a time - keeps, `Synced`: the live server's memory of the
    watched id, if it has any, says what the id's row says; an unfinished call of the id is that row,
    running, and there is at most one. So memory, read before the file, is never stale, and what may
    still run is counted by the row alone (`SoleRoom`).
    A step of another id leaves all of it as it was (`UnmovedStaysSynced`). A begin of the watched id
    finds the row what memory says it is, and if admitted makes both anew; a finish ends both alike; an
    open drops every memory, and the sweep and the retirement change the row alone. Each event is
    taken on its own, first for `Synced` and then for the room. */
module JournalSync {

  import opened Wrappers
  import opened Journal
  import opened JournalRuns
  import opened JournalOnce

  ghost predicate OneAtATime(w: World) {
    forall a, b | a in w.alive && b in w.alive :: a == b
  }

  /** An answer in memory and what the file keeps of it. */
  predicate Recorded(answer: Answer, kept: Answer) {
    kept == answer || kept == Stored(answer, false)
  }

  /** The server's memory of the watched id, if it has one, says what the file says. */
  ghost predicate Agrees(w: World, server: nat)
    requires server in w.servers
  {
    var s := w.servers[server];
    w.watch in s.records ==>
      && w.watch in w.table
      && var r, row := s.records[w.watch], w.table[w.watch];
         && row.request == r.request && row.state == r.state && row.owner == server
         && (r.state == Running ==> w.watch !in s.results)
         && (w.watch in s.results <==> row.answer.Some?)
         && (w.watch in s.results ==> Recorded(s.results[w.watch], row.answer.value))
  }

  /** An unfinished call of the watched id by a live server is the id's running row. */
  ghost predicate Open(w: World, ticket: nat)
    requires ticket in w.calls && w.calls[ticket].server in w.servers
  {
    var call := w.calls[ticket];
    call.record.id == w.watch && call.ended.None? && call.server in w.alive ==>
      && w.watch in w.table
      && w.table[w.watch].state == Running && w.table[w.watch].owner == call.server
      && w.table[w.watch].request == call.record.request && w.table[w.watch].answer.None?
      && (w.watch in w.servers[call.server].records ==> w.servers[call.server].records[w.watch].ticket == ticket)
  }

  ghost predicate Unfinished(w: World, ticket: nat) {
    && ticket in w.calls && w.calls[ticket].record.id == w.watch
    && w.calls[ticket].ended.None? && w.calls[ticket].server in w.alive
  }

  ghost predicate Synced(w: World) {
    && w.watch.Client? && OneAtATime(w)
    && (forall server | server in w.alive :: server in w.servers && Agrees(w, server))
    && (forall ticket | ticket in w.calls :: w.calls[ticket].server in w.servers && Open(w, ticket))
    && (forall a, b | Unfinished(w, a) && Unfinished(w, b) :: a == b)
  }

  /** The watched row is finished and carries this answer to this request. */
  predicate Settled(w: World, request: Request, state: State, kept: Answer) {
    && w.watch in w.table && w.table[w.watch].request == request
    && w.table[w.watch].state == state && Replayable(state) && w.table[w.watch].answer == Some(kept)
  }

  /** Between the two, the watched row, the calls of the id and what memory says of it are as they
      were, or memory forgot it. */
  ghost predicate Unmoved(w: World, w': World) {
    && w'.watch == w.watch && w'.alive <= w.alive
    && (w.watch in w'.table <==> w.watch in w.table) && (w.watch in w.table ==> w'.table[w.watch] == w.table[w.watch])
    && w.servers.Keys <= w'.servers.Keys
    && (forall server | server in w'.alive :: server in w.servers && RemembersNoMore(w, w', server))
    && w.calls.Keys <= w'.calls.Keys
    && (forall ticket | ticket in w'.calls ::
          if ticket in w.calls
          then w'.calls[ticket].(worker := w.calls[ticket].worker, ended := w.calls[ticket].ended) == w.calls[ticket]
               && (w.calls[ticket].ended.Some? ==> w'.calls[ticket].ended.Some?)
          else w'.calls[ticket].record.id != w.watch && w'.calls[ticket].server in w.servers)
  }

  ghost predicate RemembersNoMore(w: World, w': World, server: nat)
    requires server in w.servers && server in w'.servers
  {
    var s, s' := w.servers[server], w'.servers[server];
    w.watch in s'.records ==>
      && w.watch in s.records && s'.records[w.watch] == s.records[w.watch]
      && Answered(s'.results, w.watch) == Answered(s.results, w.watch)
  }

  lemma UnmovedStaysSynced(w: World, w': World)
    requires Synced(w) && Unmoved(w, w')
    ensures Synced(w')
  {
    forall server | server in w'.alive ensures Agrees(w', server) {
      assert Agrees(w, server);
      assert RemembersNoMore(w, w', server);
    }
    forall ticket | ticket in w'.calls ensures w'.calls[ticket].server in w'.servers && Open(w', ticket) {
      if ticket in w.calls {
        assert Open(w, ticket);
        if w'.calls[ticket].server in w'.alive {
          assert RemembersNoMore(w, w', w'.calls[ticket].server);
        }
      }
    }
    forall a, b | Unfinished(w', a) && Unfinished(w', b) ensures a == b {
      assert Unfinished(w, a) && Unfinished(w, b);
    }
  }

  /** A begin of another id. */
  lemma BeginOther(w: World, e: Event)
    requires Books(w) && w.watch.Client? && e.Begin? && Enabled(w, e) && e.id != w.watch
    ensures Unmoved(w, Next(w, e))
  {
    RowOfBegin(w, e);
    assert ServerOk(w.table, w.servers[e.server], e.server);
    BeginOtherIsUnmoved(w, e);
  }

  lemma BeginOtherIsUnmoved(w: World, e: Event)
    requires Registered(w) && w.watch.Client? && e.Begin? && Enabled(w, e) && e.id != w.watch && w.servers[e.server].maxlen >= 1
    requires forall server | server in w.alive :: server in w.servers
    requires var table' := Next(w, e).table;
      (w.watch in table' <==> w.watch in w.table) && (w.watch in w.table ==> table'[w.watch] == w.table[w.watch])
    ensures Unmoved(w, Next(w, e))
  {
    hide BeginF, Registered, Remembered, Judge, Reconciled;
    if Admits(w, e) {
      MemoryOfBegin(w, e);
      RememberedFinds(w.servers[e.server], BegunRecord(e));
    } else {
      BeginClientShape(w, e);
    }
  }

  /** A begin of the watched id that is refused or replayed moves nothing but an orphaned row. */
  lemma BeginRefused(w: World, e: Event)
    requires Synced(w) && e.Begin? && Enabled(w, e) && e.id == w.watch && !Admits(w, e)
    ensures Synced(Next(w, e))
    ensures w.watch in w.table && w.table[w.watch].state != Running ==> Next(w, e).table == w.table
  {
    BeginClientShape(w, e);
    var w' := Next(w, e);
    assert Agrees(w, e.server);
    forall server | server in w.alive ensures Agrees(w', server) {
      assert Agrees(w, server);
    }
    forall ticket | ticket in w.calls ensures Open(w', ticket) {
      assert Open(w, ticket);
    }
    forall a, b | Unfinished(w', a) && Unfinished(w', b) ensures a == b {
      assert Unfinished(w, a) && Unfinished(w, b);
    }
  }

  /** An admitted begin of the watched id finds it free in the file, with no call under way. */
  lemma AdmittedFindsFree(w: World, e: Event)
    requires Synced(w) && e.Begin? && Enabled(w, e) && e.id == w.watch && Admits(w, e)
    ensures w.watch in w.table ==> w.table[w.watch].request == e.request && (e.request.readOnly || Ready(w.table[w.watch].state, w.table[w.watch].answer))
    ensures forall ticket :: !Unfinished(w, ticket)
  {
    assert Agrees(w, e.server);
    forall ticket ensures !Unfinished(w, ticket) {
      if ticket in w.calls {
        assert Open(w, ticket);
      }
    }
  }

  lemma BeginAdmitted(w: World, e: Event)
    requires Books(w) && Synced(w) && e.Begin? && Enabled(w, e) && e.id == w.watch && Admits(w, e)
    ensures Synced(Next(w, e))
  {
    var w' := Next(w, e);
    RowOfBegin(w, e);
    assert ServerOk(w.table, w.servers[e.server], e.server);
    MemoryOfBegin(w, e);
    RememberedFinds(w.servers[e.server], BegunRecord(e));
    AdmittedFindsFree(w, e);
    AdmittedIsSynced(w, w', e);
  }

  lemma AdmittedIsSynced(w: World, w': World, e: Event)
    requires Synced(w) && e.Begin? && Enabled(w, e) && e.id == w.watch
    requires forall ticket :: !Unfinished(w, ticket)
    requires w'.watch == w.watch && w'.alive == w.alive
    requires w.watch in w'.table && w'.table[w.watch].state == Running && w'.table[w.watch].owner == e.server
    requires w'.table[w.watch].request == e.request && w'.table[w.watch].answer.None?
    requires e.server in w'.servers && w'.servers == w.servers[e.server := w'.servers[e.server]]
    requires var s' := w'.servers[e.server]; w.watch in s'.records && s'.records[w.watch] == BegunRecord(e) && w.watch !in s'.results
    requires w'.calls == w.calls[e.ticket := Call(e.server, BegunRecord(e), true, None)]
    ensures Synced(w')
  {
    forall ticket | ticket in w'.calls ensures w'.calls[ticket].server in w'.servers && Open(w', ticket) {
      if ticket != e.ticket {
        assert Open(w, ticket) && !Unfinished(w, ticket);
      }
    }
    forall a ensures Unfinished(w', a) ==> a == e.ticket {
      assert !Unfinished(w, a);
    }
  }

  /** A finish of another call. */
  lemma FinishOther(w: World, e: Event)
    requires Books(w) && MemoriesOk(w) && w.watch.Client? && e.Finish? && Enabled(w, e) && w.calls[e.ticket].record.id != w.watch
    ensures Unmoved(w, Next(w, e))
  {
    hide TableOk, MentionsOk, CallsOk, FinishF, QueueOk;
    RowOfFinish(w, e);
    MemoryOfFinish(w, e);
    assert MemoryOk(w, w.calls[e.ticket].server);
  }

  lemma FinishWatched(w: World, e: Event)
    requires Books(w) && MemoriesOk(w) && Synced(w) && e.Finish? && Enabled(w, e) && w.calls[e.ticket].record.id == w.watch
    ensures Synced(Next(w, e))
    ensures w.watch in w.table && w.table[w.watch].state == Running
    ensures w.watch in Next(w, e).table && Next(w, e).table[w.watch].request == w.calls[e.ticket].record.request
  {
    RowOfFinish(w, e);
    MemoryOfFinish(w, e);
    assert w.calls[e.ticket].record.ticket == e.ticket;
    assert Open(w, e.ticket);
    assert Unfinished(w, e.ticket);
    assert Agrees(w, w.calls[e.ticket].server);
    FinishedIsSynced(w, Next(w, e), e);
  }

  lemma FinishedIsSynced(w: World, w': World, e: Event)
    requires Synced(w) && e.Finish? && Enabled(w, e) && w.calls[e.ticket].record.id == w.watch && w.calls[e.ticket].record.ticket == e.ticket
    requires w'.watch == w.watch && w'.alive == w.alive
    requires w.watch in w.table && w.watch in w'.table
    requires w'.table[w.watch] == w.table[w.watch].(state := e.state, answer := ClientFinal(w, e).answer)
    requires var call := w.calls[e.ticket];
      var s := w.servers[call.server];
      && call.server in w'.servers && w'.servers == w.servers[call.server := w'.servers[call.server]]
      && w'.servers[call.server].records == SetState(s.records, call.record.ticket, e.state)
      && w'.servers[call.server].results == Closed(s, call.record, e.state, e.answer).results
    requires e.ticket in w'.calls && w'.calls == w.calls[e.ticket := w'.calls[e.ticket]]
    requires w'.calls[e.ticket] == w.calls[e.ticket].(ended := Some(e.state), worker := w'.calls[e.ticket].worker)
    ensures Synced(w')
  {
    var server := w.calls[e.ticket].server;
    assert Open(w, e.ticket) && Agrees(w, server) && Unfinished(w, e.ticket);
    forall ticket | ticket in w'.calls ensures w'.calls[ticket].server in w'.servers && Open(w', ticket) {
      assert Open(w, ticket);
      assert Unfinished(w, ticket) ==> ticket == e.ticket;
    }
    forall a ensures !Unfinished(w', a) {
      assert Unfinished(w, a) ==> a == e.ticket;
    }
  }

  lemma OpenSynced(w: World, e: Event)
    requires Books(w) && Synced(w) && e.Open? && Enabled(w, e) && OneAtATime(Next(w, e))
    ensures Synced(Next(w, e)) && w.alive == {}
  {
    var w' := Next(w, e);
    var newcomer := e.server;
    assert newcomer in w'.alive && newcomer !in w.alive;
    forall server ensures server !in w.alive {
      assert server in w.alive ==> server in w'.alive;
    }
    forall ticket | ticket in w'.calls ensures Open(w', ticket) {
      assert w.calls[ticket].server != e.server;
    }
    forall a ensures !Unfinished(w', a) {
      assert a in w.calls ==> w.calls[a].server != e.server;
    }
  }

  lemma NextStaysSynced(w: World, e: Event)
    requires Books(w) && MemoriesOk(w) && Synced(w) && Enabled(w, e) && OneAtATime(Next(w, e))
    ensures Synced(Next(w, e))
  {
    match e
    case Open(_, _, _, _) => OpenSynced(w, e);
    case Begin(_, id, _, _, _) =>
      if id != w.watch {
        BeginOther(w, e);
        UnmovedStaysSynced(w, Next(w, e));
      } else if Admits(w, e) {
        BeginAdmitted(w, e);
      } else {
        BeginRefused(w, e);
      }
    case Finish(ticket, _, _, _) =>
      if w.calls[ticket].record.id == w.watch {
        FinishWatched(w, e);
      } else {
        FinishOther(w, e);
        UnmovedStaysSynced(w, Next(w, e));
      }
    case Flush(server) =>
      FlushLeavesClients(w, server, w.watch);
      UnmovedStaysSynced(w, Next(w, e));
    case _ => UnmovedStaysSynced(w, Next(w, e));
  }

  // ── at most once, whatever is cancelled ──

  ghost predicate Succession(worlds: seq<World>, events: seq<Event>) {
    IsRun(worlds, events) && forall i | 0 <= i < |worlds| :: OneAtATime(worlds[i])
  }

  ghost function SoleRoom(w: World): int {
    w.tally.executed + |Pending(w)| + if FileReady(w) then 1 else 0
  }

  ghost predicate SoleRoomOk(w: World) {
    SoleRoom(w) <= 1 + w.tally.retired + w.tally.resultless
  }

  lemma BeginKeepsSoleRoom(w: World, e: Event)
    requires Books(w) && Synced(w) && e.Begin? && Enabled(w, e)
    ensures SoleRoom(Next(w, e)) <= SoleRoom(w) && Next(w, e).tally == w.tally
  {
    RowOfBegin(w, e);
    if Admits(w, e) {
      if e.id == w.watch {
        AdmittedFindsFree(w, e);
      }
      AdmittedKeepsSoleRoom(w, e);
    } else {
      BeginClientShape(w, e);
      assert Pending(Next(w, e)) == Pending(w);
    }
  }

  lemma AdmittedKeepsSoleRoom(w: World, e: Event)
    requires e.Begin? && Enabled(w, e) && Admits(w, e)
    requires e.id == w.watch ==> !FileReady(Next(w, e)) && (e.request.readOnly || FileReady(w))
    requires e.id != w.watch ==> (FileReady(Next(w, e)) <==> FileReady(w))
    ensures SoleRoom(Next(w, e)) <= SoleRoom(w) && Next(w, e).tally == w.tally
  {
    BeginPending(w, e);
  }

  lemma FinishKeepsSoleRoom(w: World, e: Event)
    requires Books(w) && MemoriesOk(w) && Synced(w) && e.Finish? && Enabled(w, e)
    ensures var w' := Next(w, e);
      && w'.tally.executed == w.tally.executed && w'.tally.retired == w.tally.retired
      && SoleRoom(w') - SoleRoom(w) <= w'.tally.resultless - w.tally.resultless
  {
    hide Books, MemoriesOk, BeginF, FinishF, Flushed;
    FinishFile(w, e);
    FinishMemories(w, e);
    assert e.ticket !in Pending(w) ==> Pending(w) - {e.ticket} == Pending(w);
    if w.calls[e.ticket].record.id == w.watch {
      FinishWatched(w, e);
    }
  }

  lemma OpenKeepsSoleRoom(w: World, e: Event)
    requires Registered(w) && e.Open? && Enabled(w, e) && w.watch.Client?
    ensures var w' := Next(w, e);
      && w'.tally == w.tally.(retired := w'.tally.retired)
      && SoleRoom(w') - SoleRoom(w) <= w'.tally.retired - w.tally.retired
  {
    assert forall ticket | ticket in w.calls :: w.calls[ticket].server != e.server;
    assert Pending(Next(w, e)) == Pending(w);
  }

  lemma NextKeepsSoleRoom(w: World, e: Event)
    requires Books(w) && MemoriesOk(w) && Synced(w) && Enabled(w, e) && SoleRoomOk(w)
    ensures SoleRoomOk(Next(w, e))
  {
    hide TableOk, CallsOk, MentionsOk;
    var w' := Next(w, e);
    match e
    case Open(_, _, _, _) => OpenKeepsSoleRoom(w, e);
    case Begin(_, _, _, _, _) => BeginKeepsSoleRoom(w, e);
    case Finish(_, _, _, _) => FinishKeepsSoleRoom(w, e);
    case Work(ticket) =>
      assert Pending(w') == Pending(w) - {ticket};
      assert Watched(w, w.calls[ticket].record) <==> ticket in Pending(w);
    case Flush(server) =>
      FlushLeavesClients(w, server, w.watch);
      assert Pending(w') == Pending(w);
    case Kill(_) => Cardinal(Pending(w'), Pending(w));
  }
}
