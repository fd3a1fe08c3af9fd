/** Servers one after another: a request executes at most once. Servers at once: not so. A recorded
    answer that every live server echoes is replayed ever after, by any number of them. */
module JournalReplay {

  import opened Journal
  import opened JournalRuns
  import opened JournalOnce
  import opened JournalSync
  import opened JournalTwoServers

  lemma {:induction false} SuccessionInvariant(worlds: seq<World>, events: seq<Event>, i: nat)
    requires Succession(worlds, events) && i < |worlds|
    ensures Books(worlds[i]) && MemoriesOk(worlds[i]) && Synced(worlds[i]) && SoleRoomOk(worlds[i])
    ensures worlds[i].watch == worlds[0].watch
  {
    BooksAlwaysKept(worlds, events, i);
    AtMostOnce(worlds, events, i);
    if i == 0 {
      assert Pending(worlds[0]) == {};
    } else {
      SuccessionInvariant(worlds, events, i - 1);
      NextStaysSynced(worlds[i - 1], events[i - 1]);
      NextKeepsSoleRoom(worlds[i - 1], events[i - 1]);
    }
  }

  /** Server after server, killed at any step: a client's mutating request executes at most once, and
      once more only for each time its row was retired or a run was finished without an answer.
      Cancelled runs do not count. */
  lemma AtMostOnceInSuccession(worlds: seq<World>, events: seq<Event>, i: nat)
    requires Succession(worlds, events) && i < |worlds|
    ensures var t := worlds[i].tally; t.executed <= 1 + t.retired + t.resultless
  {
    SuccessionInvariant(worlds, events, i);
  }

  // ── the answer, ever after ──

  /** The server remembers nothing of the id, or what the file says. */
  predicate Echoes(s: Server, id: OpId, request: Request, kept: Answer) {
    id in s.records ==>
      && s.records[id].request == request && Replayable(s.records[id].state)
      && id in s.results && Recorded(s.results[id], kept)
  }

  /** The watched row carries its answer, every live server echoes it, and no live run of the id is
      unfinished. */
  ghost predicate Echoed(w: World, request: Request, state: State, kept: Answer) {
    && Settled(w, request, state, kept)
    && (forall server | server in w.alive :: server in w.servers && Echoes(w.servers[server], w.watch, request, kept))
    && (forall ticket :: !Unfinished(w, ticket))
  }

  /** What a begin of the id would be told: of the recorded request, its answer exactly if the server
      echoes it; then nothing changes, and another request is refused. */
  lemma ReplaysIff(w: World, request: Request, state: State, kept: Answer, server: nat, other: Request, ticket: nat, seen: set<nat>)
    requires w.watch.Client? && Settled(w, request, state, kept) && server in w.servers
    ensures var s := w.servers[server];
      var (begun, s', table') := BeginF(s, w.table, Record(ticket, w.watch, request, Running), seen);
      && ((begun.Replay? && Recorded(begun.answer, kept)) <==> Echoes(s, w.watch, request, kept))
      && (begun.Replay? ==> s' == s && table' == w.table)
      && (Echoes(s, w.watch, request, kept) && other != request ==>
            BeginF(s, w.table, Record(ticket, w.watch, other, Running), seen) == (DifferentRequest, s, w.table))
  {
    hide Opened;
  }

  lemma EchoedIsRefused(w: World, e: Event, request: Request, state: State, kept: Answer)
    requires w.watch.Client? && e.Begin? && Enabled(w, e) && e.id == w.watch && Echoed(w, request, state, kept)
    ensures Next(w, e) == w
  {
    hide Opened, Trimmed;
    assert Echoes(w.servers[e.server], w.watch, request, kept);
    assert w.servers[e.server := w.servers[e.server]] == w.servers;
  }

  lemma UnmovedStaysEchoed(w: World, w': World, request: Request, state: State, kept: Answer)
    requires Unmoved(w, w') && Echoed(w, request, state, kept)
    ensures Echoed(w', request, state, kept)
  {
    forall server | server in w'.alive ensures server in w'.servers && Echoes(w'.servers[server], w.watch, request, kept) {
      assert RemembersNoMore(w, w', server) && Echoes(w.servers[server], w.watch, request, kept);
    }
    forall ticket ensures !Unfinished(w', ticket) {
      assert !Unfinished(w, ticket);
    }
  }

  lemma EchoedStays(w: World, e: Event, request: Request, state: State, kept: Answer)
    requires Books(w) && MemoriesOk(w) && w.watch.Client? && Enabled(w, e) && Echoed(w, request, state, kept)
    requires e.Open? ==> w.watch !in e.expired
    ensures Echoed(Next(w, e), request, state, kept)
  {
    hide MemoriesOk, TableOk, MentionsOk, CallsOk, BeginF, FinishF, Unmoved, Swept, Retired, Echoes;
    match e
    case Begin(_, id, _, _, _) =>
      if id == w.watch {
        EchoedIsRefused(w, e, request, state, kept);
      } else {
        BeginOther(w, e);
        UnmovedStaysEchoed(w, Next(w, e), request, state, kept);
      }
    case Finish(ticket, _, _, _) =>
      assert !Unfinished(w, ticket);
      FinishOther(w, e);
      UnmovedStaysEchoed(w, Next(w, e), request, state, kept);
    case Open(_, _, _, _) => OpenStaysEchoed(w, e, request, state, kept);
    case _ => QuietStaysEchoed(w, e, request, state, kept);
  }

  /** A flush, a worker's run, a kill. */
  lemma QuietStaysEchoed(w: World, e: Event, request: Request, state: State, kept: Answer)
    requires Books(w) && w.watch.Client? && (e.Flush? || e.Work? || e.Kill?) && Enabled(w, e) && Echoed(w, request, state, kept)
    ensures Echoed(Next(w, e), request, state, kept)
  {
    hide TableOk, MentionsOk, CallsOk;
    if e.Flush? {
      FlushLeavesClients(w, e.server, w.watch);
    }
    forall ticket ensures !Unfinished(Next(w, e), ticket) {
      assert !Unfinished(w, ticket);
    }
  }

  lemma OpenStaysEchoed(w: World, e: Event, request: Request, state: State, kept: Answer)
    requires Registered(w) && e.Open? && Enabled(w, e) && Echoed(w, request, state, kept) && w.watch !in e.expired
    ensures Echoed(Next(w, e), request, state, kept)
  {
    var w' := Next(w, e);
    forall ticket ensures !Unfinished(w', ticket) {
      assert !Unfinished(w, ticket);
      assert ticket in w.calls ==> w.calls[ticket].server != e.server;
    }
  }

  lemma {:induction false} WatchStays(worlds: seq<World>, events: seq<Event>, i: nat)
    requires IsRun(worlds, events) && i < |worlds|
    ensures worlds[i].watch == worlds[0].watch
  {
    hide Next, Enabled;
    if i > 0 {
      WatchStays(worlds, events, i - 1);
      SameWatch(worlds[i - 1], events[i - 1]);
    }
  }

  lemma SameWatch(w: World, e: Event)
    requires Enabled(w, e)
    ensures Next(w, e).watch == w.watch
  {
  }

  /** Any number of servers, at once or not: until it is retired nothing - no sweep, flush, finish or
      kill - changes a recorded answer that every live server echoes, and all go on echoing it. */
  lemma {:induction false} SettledForever(
    worlds: seq<World>, events: seq<Event>, i: nat, j: nat, request: Request, state: State, kept: Answer)
    requires IsRun(worlds, events) && i <= j < |worlds| && Echoed(worlds[i], request, state, kept)
    requires forall k | i <= k < j && events[k].Open? :: worlds[0].watch !in events[k].expired
    ensures Echoed(worlds[j], request, state, kept) && worlds[j].watch == worlds[0].watch && worlds[j].watch.Client?
  {
    hide Books, MemoriesOk, Echoed, Next, Enabled;
    AtMostOnce(worlds, events, j);
    WatchStays(worlds, events, j);
    if i < j {
      SettledForever(worlds, events, i, j - 1, request, state, kept);
      BooksAlwaysKept(worlds, events, j - 1);
      AtMostOnce(worlds, events, j - 1);
      EchoedStays(worlds[j - 1], events[j - 1], request, state, kept);
    }
  }

  /** Once the id's row is finished with an answer that every live server echoes, then until it is retired
      every begin of the same request, by any server then or later, returns that answer - as recorded, or
      as the file kept it - and changes neither the server nor the file; and a different request is
      refused. */
  lemma ReplayedForever(
    worlds: seq<World>, events: seq<Event>, i: nat, j: nat, request: Request, state: State, kept: Answer,
    server: nat, other: Request, ticket: nat, seen: set<nat>)
    requires IsRun(worlds, events) && i <= j < |worlds| && Echoed(worlds[i], request, state, kept)
    requires forall k | i <= k < j && events[k].Open? :: worlds[0].watch !in events[k].expired
    requires server in worlds[j].alive && worlds[j].alive <= seen
    ensures var w := worlds[j];
      && server in w.servers
      && var s := w.servers[server];
      && (var (begun, s', table') := BeginF(s, w.table, Record(ticket, w.watch, request, Running), seen);
          begun.Replay? && Recorded(begun.answer, kept) && s' == s && table' == w.table)
      && (other != request ==>
            BeginF(s, w.table, Record(ticket, w.watch, other, Running), seen) == (DifferentRequest, s, w.table))
  {
    SettledForever(worlds, events, i, j, request, state, kept);
    hide Next, Enabled, BeginF;
    ReplaysIff(worlds[j], request, state, kept, server, other, ticket, seen);
  }

  /** With one server after another every live one echoes a recorded answer, and no run of it is left. */
  lemma SettledIsEchoed(worlds: seq<World>, events: seq<Event>, i: nat, request: Request, state: State, kept: Answer)
    requires Succession(worlds, events) && i < |worlds| && Settled(worlds[i], request, state, kept)
    ensures Echoed(worlds[i], request, state, kept)
  {
    SuccessionInvariant(worlds, events, i);
    hide Next, Books, MemoriesOk;
    var w := worlds[i];
    forall server | server in w.alive ensures server in w.servers && Echoes(w.servers[server], w.watch, request, kept) {
      assert Agrees(w, server);
    }
    forall ticket ensures !Unfinished(w, ticket) {
      assert ticket in w.calls ==> JournalSync.Open(w, ticket);
    }
  }

  // ── one at a time, and only so ──

  ghost predicate AtMostAlive(worlds: seq<World>, most: nat) {
    forall i | 0 <= i < |worlds| :: |worlds[i].alive| <= most
  }

  ghost predicate OnceAlways(worlds: seq<World>) {
    forall i | 0 <= i < |worlds| :: worlds[i].tally.executed <= 1 + worlds[i].tally.retired + worlds[i].tally.resultless
  }

  lemma {:induction false} AliveWithin(worlds: seq<World>, events: seq<Event>, i: nat, servers: set<nat>)
    requires IsRun(worlds, events) && i < |worlds|
    requires forall k | 0 <= k < |events| && events[k].Open? :: events[k].server in servers
    ensures worlds[i].alive <= servers
  {
    if i > 0 {
      AliveWithin(worlds, events, i - 1, servers);
      AliveNext(worlds[i - 1], events[i - 1]);
    }
  }

  lemma AliveNext(w: World, e: Event)
    requires Enabled(w, e)
    ensures Next(w, e).alive <= if e.Open? then w.alive + {e.server} else w.alive
  {
  }

  /** A client's request executes once, retirements and runs without an answer apart, in every run with
      at most so many servers alive at a time, exactly when that is at most one. */
  lemma OnceIffOneAtATime(most: nat, id: OpId, request: Request)
    requires id.Client? && !request.readOnly
    ensures (forall worlds: seq<World>, events: seq<Event> | IsRun(worlds, events) && AtMostAlive(worlds, most) :: OnceAlways(worlds)) <==> most <= 1
  {
    hide Next, Enabled;
    if most <= 1 {
      forall worlds: seq<World>, events: seq<Event> | IsRun(worlds, events) && AtMostAlive(worlds, most)
        ensures OnceAlways(worlds)
      {
        OneAliveIsSuccession(worlds, events);
        forall i | 0 <= i < |worlds|
          ensures worlds[i].tally.executed <= 1 + worlds[i].tally.retired + worlds[i].tally.resultless
        {
          AtMostOnceInSuccession(worlds, events, i);
        }
      }
    } else {
      var worlds := TwoServersRunTwice(id, request);
      var events := TwoServers(id, request);
      forall i | 0 <= i < |worlds| ensures |worlds[i].alive| <= most {
        AliveWithin(worlds, events, i, {0, 1});
        Cardinal(worlds[i].alive, {0, 1});
      }
      assert AtMostAlive(worlds, most) && !OnceAlways(worlds);
    }
  }

  lemma OneAliveIsSuccession(worlds: seq<World>, events: seq<Event>)
    requires IsRun(worlds, events) && AtMostAlive(worlds, 1)
    ensures Succession(worlds, events)
  {
    forall i, a, b | 0 <= i < |worlds| && a in worlds[i].alive && b in worlds[i].alive ensures a == b {
      if a != b {
        Cardinal({a, b}, worlds[i].alive);
      }
    }
  }
}
