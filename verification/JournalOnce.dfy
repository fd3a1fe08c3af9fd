/** A client's operation id runs at most once, and its answer is replayed ever after
    (backends/operations.py:303-365 over backends/journal_store.py:986-1104). */
module JournalOnce {

  import opened Wrappers
  import opened Journal
  import opened JournalRuns

  // ── what a server's memory holds ──

  /** Every record is the record of a call of this server. */
  ghost predicate MemoryOk(w: World, server: nat)
    requires server in w.servers
  {
    var s := w.servers[server];
    forall id | id in s.records ::
      var ticket := s.records[id].ticket;
      && ticket in w.calls && w.calls[ticket].server == server
      && w.calls[ticket].record.id == id && w.calls[ticket].record.request == s.records[id].request
  }

  ghost predicate MemoriesOk(w: World) {
    forall server | server in w.alive :: server in w.servers && MemoryOk(w, server)
  }

  /** Trimming keeps the newest record and whatever it keeps as it was. */
  lemma {:induction false} TrimmedFinds(s: Server, id: OpId)
    requires s.maxlen >= 1 && s.order != [] && s.order[|s.order| - 1] == id && id !in s.order[..|s.order| - 1]
    ensures var s' := Trimmed(s);
      && (id in s'.records <==> id in s.records)
      && (forall other | other in s'.records ::
            other in s.records && s'.records[other] == s.records[other] && Answered(s'.results, other) == Answered(s.results, other))
    decreases |s.order|
  {
    if |s.order| > s.maxlen {
      assert s.order[0] in s.order[..|s.order| - 1];
      assert s.order[1..][..|s.order| - 2] == s.order[..|s.order| - 1][1..];
      TrimmedFinds(s.(order := s.order[1..], records := s.records - {s.order[0]}, results := s.results - {s.order[0]}), id);
    }
  }

  /** Remembering a record shows it under its own id, and under another id what was there before or,
      pushed out, nothing. */
  lemma RememberedFinds(s: Server, record: Record)
    requires s.maxlen >= 1
    ensures var s' := Remembered(s, record);
      && record.id in s'.records && s'.records[record.id] == record && record.id !in s'.results
      && (forall id | id in s'.records && id != record.id ::
            && id in s.records && s'.records[id] == s.records[id]
            && Answered(s'.results, id) == Answered(s.results, id))
  {
    var kept := Without(s.order, record.id);
    var s' := s.(order := kept + [record.id], records := s.records[record.id := record], results := s.results - {record.id});
    assert s'.order[..|kept|] == kept;
    TrimmedFinds(s', record.id);
    assert Answered(Trimmed(s').results, record.id) == None;
  }

  lemma MemoryOfBegin(w: World, e: Event)
    requires e.Begin? && Enabled(w, e) && Admits(w, e)
    ensures var s, s' := w.servers[e.server], Next(w, e).servers[e.server];
      && s'.records == Remembered(s, BegunRecord(e)).records && s'.results == Remembered(s, BegunRecord(e)).results
      && Next(w, e).servers == w.servers[e.server := s']
      && Next(w, e).calls == w.calls[e.ticket := Call(e.server, BegunRecord(e), true, None)]
  {
  }

  lemma MemoryOfFinish(w: World, e: Event)
    requires e.Finish? && Enabled(w, e)
    ensures var call := w.calls[e.ticket];
      var s, s' := w.servers[call.server], Next(w, e).servers[call.server];
      && s'.records == SetState(s.records, call.record.ticket, e.state)
      && s'.results == Closed(s, call.record, e.state, e.answer).results
      && Next(w, e).servers == w.servers[call.server := s']
  {
  }

  lemma BeginKeepsMemories(w: World, e: Event)
    requires MemoriesOk(w) && e.Begin? && Enabled(w, e) && w.servers[e.server].maxlen >= 1
    ensures MemoriesOk(Next(w, e))
  {
    if Admits(w, e) {
      MemoryOfBegin(w, e);
      RememberedFinds(w.servers[e.server], BegunRecord(e));
      forall server | server in w.alive ensures MemoryOk(Next(w, e), server) {
        assert MemoryOk(w, server);
      }
    } else {
      BeginClientShape(w, e);
    }
  }

  lemma FinishKeepsMemories(w: World, e: Event)
    requires MemoriesOk(w) && e.Finish? && Enabled(w, e)
    ensures MemoriesOk(Next(w, e))
  {
    MemoryOfFinish(w, e);
    forall server | server in w.alive ensures MemoryOk(Next(w, e), server) {
      assert MemoryOk(w, server);
    }
  }

  lemma NextKeepsMemories(w: World, e: Event)
    requires Books(w) && MemoriesOk(w) && Enabled(w, e)
    ensures MemoriesOk(Next(w, e))
  {
    hide TableOk, MentionsOk, CallsOk, QueueOk, BeginF, FinishF;
    match e
    case Begin(server, _, _, _, _) =>
      assert ServerOk(w.table, w.servers[server], server);
      BeginKeepsMemories(w, e);
    case Finish(_, _, _, _) => FinishKeepsMemories(w, e);
    case _ =>
      forall server | server in Next(w, e).alive && server in w.alive ensures MemoryOk(Next(w, e), server) {
        assert MemoryOk(w, server);
      }
  }

  // ── what lets the watched id run ──

  /** An id in this state is admitted again. */
  predicate Ready(state: State, answer: Option<Answer>) {
    state == Cancelled || (Replayable(state) && answer.None?)
  }

  /** The file would let a mutating request under the id run. */
  predicate FileReady(w: World) {
    w.watch !in w.table || (!w.table[w.watch].request.readOnly && Ready(w.table[w.watch].state, w.table[w.watch].answer))
  }

  /** A live server's memory would, whatever the file says. */
  predicate MemoryReady(w: World, server: nat) {
    && server in w.alive && server in w.servers && w.watch in w.servers[server].records
    && var r := w.servers[server].records[w.watch];
       !r.request.readOnly && Ready(r.state, Answered(w.servers[server].results, w.watch))
  }

  ghost function ReadyMemories(w: World): set<nat> {
    set server | server in w.alive && MemoryReady(w, server)
  }

  /** Admitted mutating calls under the id whose work has yet to run. */
  ghost function Pending(w: World): set<nat> {
    set ticket | ticket in w.calls && Watched(w, w.calls[ticket].record) && w.calls[ticket].worker && w.calls[ticket].server in w.alive
  }

  ghost function Room(w: World): int {
    w.tally.executed + |Pending(w)| + (if FileReady(w) then 1 else 0) + |ReadyMemories(w)|
  }

  /** Flushing a queue of server ids' writes leaves clients' rows alone. */
  lemma {:induction false} FlushLeavesClients(w: World, server: nat, id: OpId)
    requires Books(w) && server in w.alive && id.Client?
    ensures var table' := Flushed(w, server).table;
      (id in table' <==> id in w.table) && (id in w.table ==> table'[id] == w.table[id])
    decreases |w.servers[server].queue|
  {
    FlushedStep(w, server);
    if w.servers[server].queue != [] {
      assert ServerOk(w.table, w.servers[server], server);
      assert StatementOk(w.table, w.servers[server].queue[0], server);
      CommitFirstKeepsBooks(w, server);
      FlushLeavesClients(CommitFirst(w, server), server, id);
    }
  }

  /** The watched row after a begin: reconciled if looked up; its own running row if admitted. */
  lemma RowOfBegin(w: World, e: Event)
    requires Books(w) && e.Begin? && Enabled(w, e) && w.watch.Client?
    ensures var row, table' := AfterLookup(w, e).table, Next(w, e).table;
      if e.id == w.watch && Admits(w, e) then
        && w.watch in table' && table'[w.watch].state == Running && table'[w.watch].owner == e.server
        && table'[w.watch].request == e.request && table'[w.watch].answer.None?
      else if e.id.Minted? then
        (w.watch in table' <==> w.watch in w.table) && (w.watch in w.table ==> table'[w.watch] == w.table[w.watch])
      else
        (w.watch in table' <==> w.watch in row) && (w.watch in row ==> table'[w.watch] == row[w.watch])
  {
    assert ServerOk(w.table, w.servers[e.server], e.server);
    if e.id.Client? {
      BeginClientShape(w, e);
      if Admits(w, e) {
        AfterLookupKeepsBooks(w, e);
        FlushLeavesClients(AfterLookup(w, e), e.server, w.watch);
      }
    }
  }

  /** The watched row after a finish. */
  lemma RowOfFinish(w: World, e: Event)
    requires Books(w) && e.Finish? && Enabled(w, e) && w.watch.Client?
    ensures var call, table' := w.calls[e.ticket], Next(w, e).table;
      && (w.watch in table' <==> w.watch in w.table)
      && (w.watch in w.table && call.record.id == w.watch && w.table[w.watch].owner == call.server ==>
            table'[w.watch] == w.table[w.watch].(state := e.state, answer := ClientFinal(w, e).answer))
      && (w.watch in w.table && !(call.record.id == w.watch && w.table[w.watch].owner == call.server) ==>
            table'[w.watch] == w.table[w.watch])
  {
    var call := w.calls[e.ticket];
    assert ServerOk(w.table, w.servers[call.server], call.server);
    if call.record.id.Client? {
      FinishClientShape(w, e);
      FlushLeavesClients(w, call.server, w.watch);
    }
  }

  lemma Cardinal<T>(a: set<T>, b: set<T>)
    requires a <= b
    ensures |a| <= |b|
  {
    assert b == a + (b - a);
  }

  lemma BeginMemories(w: World, e: Event)
    requires e.Begin? && Enabled(w, e) && Admits(w, e) && w.servers[e.server].maxlen >= 1
    ensures ReadyMemories(Next(w, e)) <= if e.id == w.watch then ReadyMemories(w) - {e.server} else ReadyMemories(w)
  {
    MemoryOfBegin(w, e);
    RememberedFinds(w.servers[e.server], BegunRecord(e));
    var w' := Next(w, e);
    forall server | server in ReadyMemories(w')
      ensures server in ReadyMemories(w) && (e.id == w.watch ==> server != e.server)
    {
      assert MemoryReady(w', server);
    }
  }

  lemma BeginPending(w: World, e: Event)
    requires e.Begin? && Enabled(w, e) && Admits(w, e)
    ensures Pending(Next(w, e)) == if e.id == w.watch && !e.request.readOnly then Pending(w) + {e.ticket} else Pending(w)
  {
    MemoryOfBegin(w, e);
  }

  /** A mutating request is admitted only where there is room. */
  lemma AdmittedHasRoom(w: World, e: Event)
    requires e.Begin? && Enabled(w, e) && Admits(w, e) && w.watch.Client? && e.id == w.watch && !e.request.readOnly
    ensures FileReady(w) || e.server in ReadyMemories(w)
  {
  }

  /** An admitted begin takes the room that admitted it. */
  lemma AdmittedKeepsRoom(w: World, e: Event)
    requires e.Begin? && Enabled(w, e) && Admits(w, e) && w.watch.Client? && w.servers[e.server].maxlen >= 1
    requires e.id == w.watch ==> !FileReady(Next(w, e))
    requires e.id != w.watch ==> (FileReady(Next(w, e)) <==> FileReady(w))
    ensures Room(Next(w, e)) <= Room(w)
  {
    var w' := Next(w, e);
    BeginMemories(w, e);
    BeginPending(w, e);
    if e.id == w.watch {
      Cardinal(ReadyMemories(w'), ReadyMemories(w) - {e.server});
      if !e.request.readOnly {
        AdmittedHasRoom(w, e);
      }
    } else {
      Cardinal(ReadyMemories(w'), ReadyMemories(w));
    }
  }

  lemma BeginKeepsRoom(w: World, e: Event)
    requires Books(w) && e.Begin? && Enabled(w, e) && w.watch.Client?
    ensures Room(Next(w, e)) <= Room(w) && Next(w, e).tally == w.tally
  {
    RowOfBegin(w, e);
    assert ServerOk(w.table, w.servers[e.server], e.server);
    if Admits(w, e) {
      AdmittedKeepsRoom(w, e);
    } else {
      BeginClientShape(w, e);
      assert Pending(Next(w, e)) == Pending(w) && ReadyMemories(Next(w, e)) == ReadyMemories(w);
    }
  }

  /** Finishing a call of the id freed the id in its server's memory only if it is a mutating call
      cancelled, or one without an answer. */
  lemma FinishMemories(w: World, e: Event)
    requires MemoriesOk(w) && e.Finish? && Enabled(w, e) && w.watch.Client? && w.calls[e.ticket].record.ticket == e.ticket
    ensures var call := w.calls[e.ticket];
      var freed := Watched(w, call.record) && Ready(e.state, e.answer);
      ReadyMemories(Next(w, e)) <= if freed then ReadyMemories(w) + {call.server} else ReadyMemories(w)
    ensures Pending(Next(w, e)) == if e.state == Cancelled then Pending(w) - {e.ticket} else Pending(w)
    ensures Watched(w, w.calls[e.ticket].record) && e.state == Cancelled ==> e.ticket in Pending(w)
  {
    MemoryOfFinish(w, e);
    var call := w.calls[e.ticket];
    assert MemoryOk(w, call.server);
  }

  lemma FinishFile(w: World, e: Event)
    requires Books(w) && e.Finish? && Enabled(w, e) && w.watch.Client?
    ensures FileReady(Next(w, e)) ==> FileReady(w) || (w.calls[e.ticket].record.id == w.watch && Ready(e.state, e.answer))
    ensures w.calls[e.ticket].record.ticket == e.ticket
  {
    RowOfFinish(w, e);
  }

  lemma FinishKeepsRoom(w: World, e: Event)
    requires Books(w) && MemoriesOk(w) && e.Finish? && Enabled(w, e) && w.watch.Client?
    ensures var w' := Next(w, e);
      && w'.tally.executed == w.tally.executed && w'.tally.retired == w.tally.retired
      && Room(w') - Room(w) <= w'.tally.cancelled - w.tally.cancelled + 2 * (w'.tally.resultless - w.tally.resultless)
  {
    FinishFile(w, e);
    FinishedRoom(w, e);
  }

  lemma FinishedRoom(w: World, e: Event)
    requires MemoriesOk(w) && e.Finish? && Enabled(w, e) && w.watch.Client? && w.calls[e.ticket].record.ticket == e.ticket
    requires FileReady(Next(w, e)) ==> FileReady(w) || (w.calls[e.ticket].record.id == w.watch && Ready(e.state, e.answer))
    ensures var w' := Next(w, e);
      && w'.tally.executed == w.tally.executed && w'.tally.retired == w.tally.retired
      && Room(w') - Room(w) <= w'.tally.cancelled - w.tally.cancelled + 2 * (w'.tally.resultless - w.tally.resultless)
  {
    var w', call := Next(w, e), w.calls[e.ticket];
    FinishMemories(w, e);
    if Watched(w, call.record) && Ready(e.state, e.answer) {
      Cardinal(ReadyMemories(w'), ReadyMemories(w) + {call.server});
    } else {
      Cardinal(ReadyMemories(w'), ReadyMemories(w));
    }
    assert e.ticket !in Pending(w) ==> Pending(w) - {e.ticket} == Pending(w);
  }

  lemma OpenKeepsRoom(w: World, e: Event)
    requires Registered(w) && e.Open? && Enabled(w, e) && w.watch.Client?
    ensures var w' := Next(w, e);
      && w'.tally == w.tally.(retired := w'.tally.retired)
      && Room(w') - Room(w) <= w'.tally.retired - w.tally.retired
  {
    var w' := Next(w, e);
    assert forall ticket | ticket in w.calls :: w.calls[ticket].server != e.server;
    assert Pending(w') == Pending(w);
    assert ReadyMemories(w') == ReadyMemories(w);
  }

  lemma WorkKeepsRoom(w: World, e: Event)
    requires e.Work? && Enabled(w, e)
    ensures var w' := Next(w, e);
      Room(w') == Room(w) && w'.tally == w.tally.(executed := w'.tally.executed)
  {
    var w' := Next(w, e);
    assert ReadyMemories(w') == ReadyMemories(w);
    assert Pending(w') == Pending(w) - {e.ticket};
    assert Watched(w, w.calls[e.ticket].record) <==> e.ticket in Pending(w);
  }

  lemma KillKeepsRoom(w: World, e: Event)
    requires e.Kill? && Enabled(w, e)
    ensures Room(Next(w, e)) <= Room(w) && Next(w, e).tally == w.tally
  {
    Cardinal(Pending(Next(w, e)), Pending(w));
    Cardinal(ReadyMemories(Next(w, e)), ReadyMemories(w));
  }

  lemma FlushKeepsRoom(w: World, e: Event)
    requires Books(w) && e.Flush? && Enabled(w, e) && w.watch.Client?
    ensures Room(Next(w, e)) == Room(w) && Next(w, e).tally == w.tally
  {
    FlushLeavesClients(w, e.server, w.watch);
    assert Pending(Next(w, e)) == Pending(w) && ReadyMemories(Next(w, e)) == ReadyMemories(w);
  }

  ghost predicate RoomOk(w: World) {
    Room(w) <= 1 + w.tally.retired + w.tally.cancelled + 2 * w.tally.resultless
  }

  lemma NextKeepsRoom(w: World, e: Event)
    requires Books(w) && MemoriesOk(w) && Enabled(w, e) && w.watch.Client? && RoomOk(w)
    ensures RoomOk(Next(w, e))
  {
    match e
    case Open(_, _, _, _) => OpenKeepsRoom(w, e);
    case Begin(_, _, _, _, _) => BeginKeepsRoom(w, e);
    case Finish(_, _, _, _) => FinishKeepsRoom(w, e);
    case Work(_) => WorkKeepsRoom(w, e);
    case Flush(_) => FlushKeepsRoom(w, e);
    case Kill(_) => KillKeepsRoom(w, e);
  }

  /** Whatever the servers - many at once, killed at any step - a client's mutating request executes
      at most once, and once more only for each time its row was retired, a run of it was cancelled
      before its worker ran, or (twice) a run was finished without an answer. */
  lemma {:induction false} AtMostOnce(worlds: seq<World>, events: seq<Event>, i: nat)
    requires IsRun(worlds, events) && i < |worlds|
    ensures var t := worlds[i].tally; t.executed <= 1 + t.retired + t.cancelled + 2 * t.resultless
    ensures MemoriesOk(worlds[i]) && worlds[i].watch.Client?
    ensures RoomOk(worlds[i])
  {
    if i == 0 {
      assert Pending(worlds[0]) == {} && ReadyMemories(worlds[0]) == {};
    } else {
      AtMostOnce(worlds, events, i - 1);
      BooksAlwaysKept(worlds, events, i - 1);
      NextKeepsMemories(worlds[i - 1], events[i - 1]);
      NextKeepsRoom(worlds[i - 1], events[i - 1]);
    }
  }
}
