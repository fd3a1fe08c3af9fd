/** What a begin of a client's id is told of a call that has not ended: while its server lives that it is in
    progress, once that server is dead that it must be reconciled, until its row is retired. */
module JournalOutcomes {

  import opened Wrappers
  import opened Journal
  import opened JournalRuns
  import opened JournalOnce
  import opened JournalSync
  import opened JournalReplay

  /** A begin, at this moment, of the id under this request. */
  ghost function Told(w: World, server: nat, request: Request, ticket: nat, seen: set<nat>): Begun
    requires server in w.servers
  {
    BeginF(w.servers[server], w.table, Record(ticket, w.watch, request, Running), seen).0
  }

  /** In a succession of servers the same request is refused as in progress as long as its call is
      unfinished on the live server, and another as a different one; and both change nothing. */
  lemma UnfinishedIsInProgress(
    worlds: seq<World>, events: seq<Event>, i: nat, call: nat, server: nat, request: Request, ticket: nat, seen: set<nat>)
    requires Succession(worlds, events) && i < |worlds| && Unfinished(worlds[i], call) && server in worlds[i].alive && server in seen
    ensures var w := worlds[i];
      && server in w.servers && server == w.calls[call].server
      && Told(w, server, request, ticket, seen) == (if request == w.calls[call].record.request then InProgress else DifferentRequest)
      && BeginF(w.servers[server], w.table, Record(ticket, w.watch, request, Running), seen).1 == w.servers[server]
      && BeginF(w.servers[server], w.table, Record(ticket, w.watch, request, Running), seen).2 == w.table
  {
    SuccessionInvariant(worlds, events, i);
    hide Books, MemoriesOk, JournalRuns.Next, Opened, SoleRoomOk;
    var w := worlds[i];
    assert JournalSync.Open(w, call) && Agrees(w, server);
  }

  // ── the server that ran it is dead ──

  /** The row is a dead server's, as it left it or read since, and no live server remembers the id or
      has a call of it under way. */
  ghost predicate Abandoned(w: World, request: Request, owner: nat) {
    && w.watch.Client? && owner in w.servers && owner !in w.alive
    && w.watch in w.table && w.table[w.watch].owner == owner && w.table[w.watch].request == request
    && (w.table[w.watch].state == UnknownCommit || (w.table[w.watch].state == Running && !request.readOnly))
    && (forall server | server in w.alive :: server in w.servers && Forgets(w, server))
    && (forall ticket :: !Unfinished(w, ticket))
  }

  predicate Forgets(w: World, server: nat)
    requires server in w.servers
  {
    w.watch !in w.servers[server].records
  }

  lemma InstanceIs(w: World, server: nat)
    requires Books(w) && server in w.alive
    ensures server in w.servers && w.servers[server].instance == server
  {
    assert ServerOk(w.table, w.servers[server], server);
  }

  /** A kill while a mutating call is unfinished leaves it so. */
  lemma KillAbandons(worlds: seq<World>, events: seq<Event>, i: nat, call: nat)
    requires Succession(worlds, events) && i < |events| && Unfinished(worlds[i], call)
    requires !worlds[i].calls[call].record.request.readOnly && events[i] == Kill(worlds[i].calls[call].server)
    ensures Abandoned(worlds[i + 1], worlds[i].calls[call].record.request, worlds[i].calls[call].server)
  {
    SuccessionInvariant(worlds, events, i);
    hide Books, MemoriesOk, SoleRoomOk;
    var w := worlds[i];
    assert Enabled(w, events[i]) && worlds[i + 1] == Next(w, events[i]);
    assert JournalSync.Open(w, call);
    var left := worlds[i + 1].alive;
    forall server ensures server !in left {
      assert server in w.alive && w.calls[call].server in w.alive ==> server == w.calls[call].server;
    }
  }

  /** What a live server then tells: a probe that finds the dead server dead, or any once the row was read,
      that it must be reconciled; and another request that it is a different one. */
  lemma AbandonedIsTold(w: World, request: Request, owner: nat, server: nat, other: Request, ticket: nat, seen: set<nat>)
    requires Books(w) && Abandoned(w, request, owner) && server in w.alive
    ensures server in w.servers
    ensures Told(w, server, request, ticket, seen) ==
      if w.table[w.watch].state == Running && owner in seen then InProgress else RequiresReconcile
    ensures other != request ==> Told(w, server, other, ticket, seen) == DifferentRequest
  {
    InstanceIs(w, server);
    hide Opened, Books;
    assert Forgets(w, server);
  }

  /** Nothing but retirement changes that, for any number of servers opened since; and once the row was read,
      or opened over, by one that saw its owner dead, it stays read. */
  lemma AbandonedStays(w: World, e: Event, request: Request, owner: nat)
    requires Books(w) && MemoriesOk(w) && Enabled(w, e) && Abandoned(w, request, owner)
    requires e.Open? ==> w.watch !in e.expired
    ensures Abandoned(Next(w, e), request, owner) && Next(w, e).watch == w.watch
    ensures w.table[w.watch].state == UnknownCommit || (e.Open? && owner !in e.seen) ==> Next(w, e).table[w.watch].state == UnknownCommit
  {
    hide MemoriesOk, TableOk, MentionsOk, CallsOk, BeginF, FinishF, Unmoved, Swept, Retired;
    match e
    case Begin(_, id, _, _, _) =>
      if id == w.watch {
        AbandonedIsRead(w, e, request, owner);
      } else {
        BeginOther(w, e);
        UnmovedStaysAbandoned(w, Next(w, e), request, owner);
      }
    case Finish(ticket, _, _, _) =>
      assert !Unfinished(w, ticket);
      FinishOther(w, e);
      UnmovedStaysAbandoned(w, Next(w, e), request, owner);
    case Open(_, _, _, _) => OpenStaysAbandoned(w, e, request, owner);
    case _ => QuietStaysAbandoned(w, e, request, owner);
  }

  lemma UnmovedStaysAbandoned(w: World, w': World, request: Request, owner: nat)
    requires Unmoved(w, w') && Abandoned(w, request, owner)
    ensures Abandoned(w', request, owner) && w'.table[w.watch].state == w.table[w.watch].state
  {
    forall server | server in w'.alive ensures server in w'.servers && Forgets(w', server) {
      assert RemembersNoMore(w, w', server) && Forgets(w, server);
    }
    forall ticket ensures !Unfinished(w', ticket) {
      assert !Unfinished(w, ticket);
    }
  }

  lemma AbandonedIsRead(w: World, e: Event, request: Request, owner: nat)
    requires Books(w) && e.Begin? && e.id == w.watch && Enabled(w, e) && Abandoned(w, request, owner)
    ensures Abandoned(Next(w, e), request, owner) && Next(w, e).watch == w.watch
    ensures w.table[w.watch].state == UnknownCommit ==> Next(w, e).table[w.watch].state == UnknownCommit
  {
    InstanceIs(w, e.server);
    hide Opened, Trimmed, Books;
    assert Forgets(w, e.server);
    var w' := Next(w, e);
    forall server | server in w'.alive ensures server in w'.servers && Forgets(w', server) {
      assert Forgets(w, server);
    }
    forall ticket ensures !Unfinished(w', ticket) {
      assert !Unfinished(w, ticket);
    }
  }

  lemma OpenStaysAbandoned(w: World, e: Event, request: Request, owner: nat)
    requires Registered(w) && e.Open? && Enabled(w, e) && Abandoned(w, request, owner) && w.watch !in e.expired
    ensures Abandoned(Next(w, e), request, owner) && Next(w, e).watch == w.watch
    ensures w.table[w.watch].state == UnknownCommit || owner !in e.seen ==> Next(w, e).table[w.watch].state == UnknownCommit
  {
    var w' := Next(w, e);
    forall server | server in w'.alive ensures server in w'.servers && Forgets(w', server) {
      if server != e.server {
        assert Forgets(w, server);
      }
    }
    forall ticket ensures !Unfinished(w', ticket) {
      assert !Unfinished(w, ticket);
      assert ticket in w.calls ==> w.calls[ticket].server != e.server;
    }
  }

  /** A flush, a worker's run, a kill. */
  lemma QuietStaysAbandoned(w: World, e: Event, request: Request, owner: nat)
    requires Books(w) && (e.Flush? || e.Work? || e.Kill?) && Enabled(w, e) && Abandoned(w, request, owner)
    ensures Abandoned(Next(w, e), request, owner) && Next(w, e).watch == w.watch
    ensures Next(w, e).table[w.watch].state == w.table[w.watch].state
  {
    hide TableOk, MentionsOk, CallsOk;
    if e.Flush? {
      FlushLeavesClients(w, e.server, w.watch);
    }
    forall server | server in Next(w, e).alive ensures server in Next(w, e).servers && Forgets(Next(w, e), server) {
      assert Forgets(w, server);
    }
    forall ticket ensures !Unfinished(Next(w, e), ticket) {
      assert !Unfinished(w, ticket);
    }
  }

  lemma {:induction false} AbandonedForever(worlds: seq<World>, events: seq<Event>, i: nat, j: nat, request: Request, owner: nat)
    requires IsRun(worlds, events) && i <= j < |worlds| && Abandoned(worlds[i], request, owner)
    requires forall k | i <= k < j && events[k].Open? :: worlds[0].watch !in events[k].expired
    ensures Abandoned(worlds[j], request, owner) && worlds[j].watch == worlds[0].watch
    ensures (exists k :: i <= k < j && events[k].Open? && owner !in events[k].seen) ==> worlds[j].table[worlds[j].watch].state == UnknownCommit
    decreases j
  {
    hide Books, MemoriesOk, Abandoned, Next, Enabled;
    WatchStays(worlds, events, j);
    if i < j {
      AbandonedForever(worlds, events, i, j - 1, request, owner);
      BooksAlwaysKept(worlds, events, j - 1);
      AtMostOnce(worlds, events, j - 1);
      AbandonedStays(worlds[j - 1], events[j - 1], request, owner);
    }
  }

  /** A mutating call's server is killed before the call was finished. From the next open that finds it dead,
      every begin of the same request, by any server then or later, is told to reconcile, and of another
      request that it differs - until the row is retired. */
  lemma KilledNeedsReconcile(
    worlds: seq<World>, events: seq<Event>, i: nat, k: nat, j: nat, call: nat, server: nat, other: Request, ticket: nat, seen: set<nat>)
    requires Succession(worlds, events) && i < k < j < |worlds| && Unfinished(worlds[i], call)
    requires !worlds[i].calls[call].record.request.readOnly && events[i] == Kill(worlds[i].calls[call].server)
    requires events[k].Open? && worlds[i].calls[call].server !in events[k].seen
    requires forall l | i < l < j && events[l].Open? :: worlds[0].watch !in events[l].expired
    requires server in worlds[j].alive
    ensures var w, request := worlds[j], worlds[i].calls[call].record.request;
      && server in w.servers && Told(w, server, request, ticket, seen) == RequiresReconcile
      && (other != request ==> Told(w, server, other, ticket, seen) == DifferentRequest)
  {
    hide Abandoned, Next, Enabled, BeginF;
    var request, owner := worlds[i].calls[call].record.request, worlds[i].calls[call].server;
    KillAbandons(worlds, events, i, call);
    AbandonedForever(worlds, events, i + 1, j, request, owner);
    BooksAlwaysKept(worlds, events, j);
    hide Books;
    AbandonedIsTold(worlds[j], request, owner, server, other, ticket, seen);
  }
}
