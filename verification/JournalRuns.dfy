/** Runs of the durable journal: servers opening one file one after another or at once, their calls
    beginning, running and finishing, queued writes flushed late, servers killed between any two
    steps.
    A world is the file, every server's memory, and what a run remembers of its calls. `Books` is what
    each step keeps: the file's rows are under distinct numbers; a live server's queue, row numbers and
    put-off reads each speak of calls of its own, at most one of them of each call; and between them
    they say how every one of its calls stands - running, ended and queued, ended and in its row, or
    lost with its number. A begin or a finish changes one call's books (`OwnChange`, and `ClientChange`
    for a client's id, which drains the queue first); a flush commits the queue a statement at a time. */
module JournalRuns {

  import opened Wrappers
  import opened Journal

  /** An admitted call: `worker` says its work has not run yet, `ended` how it was finished. */
  datatype Call = Call(server: nat, record: Record, worker: bool, ended: Option<State>)

  /** What happened to one client id, `watch`: how often a mutating request under it executed, and
      what lets the id run again - its row retired, a run cancelled before its worker ran, a run
      finished without an answer. */
  datatype Tally = Tally(executed: nat, retired: nat, cancelled: nat, resultless: nat)

  datatype World = World(
    watch: OpId, table: Table, servers: map<nat, Server>, alive: set<nat>,
    calls: map<nat, Call>, tickets: map<OpId, nat>, retired: set<OpId>, lost: set<nat>, tally: Tally)

  /** `seen` are the owners the probe takes for alive: every one that lives, and perhaps one that died. */
  datatype Event =
    | Open(server: nat, maxlen: nat, expired: set<OpId>, seen: set<nat>)
    | Begin(server: nat, id: OpId, request: Request, ticket: nat, seen: set<nat>)
    | Work(ticket: nat)
    | Finish(ticket: nat, state: State, answer: Option<Answer>, kept: bool)
    | Flush(server: nat)
    | Kill(server: nat)

  predicate Enabled(w: World, e: Event) {
    match e
    case Open(server, maxlen, expired, seen) =>
      && server !in w.servers && maxlen >= 1 && w.alive <= seen
      && forall id | id in expired :: id in w.table && w.table[id].state != Running
    case Begin(server, id, request, ticket, seen) =>
      server in w.alive && server in w.servers && ticket !in w.calls && (id.Minted? ==> id !in w.tickets) && w.alive <= seen
    case Work(ticket) => ticket in w.calls && w.calls[ticket].server in w.alive && w.calls[ticket].worker
    case Finish(ticket, state, answer, kept) =>
      && ticket in w.calls && w.calls[ticket].server in w.alive && w.calls[ticket].server in w.servers
      && w.calls[ticket].ended.None? && state != Running
      && (state == Cancelled ==> w.calls[ticket].worker)   // "cancelled before its worker ran"
    case Flush(server) => server in w.alive && server in w.servers
    case Kill(server) => server in w.alive
  }

  function Empty(instance: nat, maxlen: nat): Server {
    Server(instance, maxlen, [], map[], map[], [], [], {})
  }

  predicate Watched(w: World, record: Record) {
    record.id == w.watch && !record.request.readOnly
  }

  /** The call whose rowid `Noted` drops, if it drops one. */
  ghost function Dropped(w: World, s: Server, id: OpId): set<nat> {
    var noted := Forgotten(s.seqs, id);
    if |noted| + 1 > s.maxlen && noted != [] && noted[0].id in w.tickets then {w.tickets[noted[0].id]} else {}
  }

  ghost function Next(w: World, e: Event): World
    requires Enabled(w, e)
  {
    match e
    case Open(server, maxlen, expired, seen) =>
      w.(table := Retired(Swept(w.table, server, seen), expired),
         servers := w.servers[server := Empty(server, maxlen)],
         alive := w.alive + {server},
         retired := w.retired + expired,
         tally := if w.watch in expired then w.tally.(retired := w.tally.retired + 1) else w.tally)
    case Begin(server, id, request, ticket, seen) =>
      var s := w.servers[server];
      var record := Record(ticket, id, request, Running);
      var (begun, s', table') := BeginF(s, w.table, record, seen);
      var w' := w.(table := table', servers := w.servers[server := s']);
      if !begun.Admitted? then w'
      else w'.(
        calls := w.calls[ticket := Call(server, record, true, None)],
        tickets := if id.Minted? then w.tickets[id := ticket] else w.tickets,
        lost := if id.Minted? && !request.readOnly then w.lost + Dropped(w, s, id) else w.lost)
    case Work(ticket) =>
      w.(calls := w.calls[ticket := w.calls[ticket].(worker := false)],
         tally := if Watched(w, w.calls[ticket].record) then w.tally.(executed := w.tally.executed + 1) else w.tally)
    case Finish(ticket, state, answer, kept) =>
      var call := w.calls[ticket];
      var (s', table') := FinishF(w.servers[call.server], w.table, call.record, state, answer, kept);
      w.(table := table', servers := w.servers[call.server := s'],
         calls := w.calls[ticket := call.(ended := Some(state), worker := call.worker && state != Cancelled)],
         tally := if call.record.id != w.watch then w.tally
                  else if state == Cancelled then w.tally.(cancelled := w.tally.cancelled + 1)
                  else if Replayable(state) && answer.None? then w.tally.(resultless := w.tally.resultless + 1)
                  else w.tally)
    case Flush(server) =>
      Flushed(w, server)
    case Kill(server) => w.(alive := w.alive - {server})
  }

  ghost predicate Initial(w: World) {
    && w.watch.Client?
    && w.table == map[] && w.servers == map[] && w.alive == {} && w.calls == map[] && w.tickets == map[]
    && w.retired == {} && w.lost == {} && w.tally == Tally(0, 0, 0, 0)
  }

  ghost predicate IsRun(worlds: seq<World>, events: seq<Event>) {
    && |worlds| == |events| + 1 && Initial(worlds[0])
    && forall i | 0 <= i < |events| :: Enabled(worlds[i], events[i]) && worlds[i + 1] == Next(worlds[i], events[i])
  }

  // ── the books: what file, queue and seq map say of every server's own call ──

  function Target(statement: Statement): OpId {
    match statement
    case Upsert(row) => row.id
    case SetBySeq(id, _, _, _) => id
    case SetClient(id, _, _, _) => id
  }

  function Queued(queue: seq<Statement>, id: OpId): (found: Option<Statement>)
    ensures found.Some? ==> found.value in queue && Target(found.value) == id
    ensures found.None? <==> forall st | st in queue :: Target(st) != id
    decreases |queue|
  {
    if queue == [] then None
    else if Target(queue[0]) == id then Some(queue[0])
    else Queued(queue[1..], id)
  }

  ghost predicate TableOk(table: Table) {
    && (forall id | id in table :: table[id].id == id && table[id].rowid >= 1)
    && (forall a, b | a in table && b in table && a != b :: table[a].rowid != table[b].rowid)
  }

  ghost predicate RunningHere(table: Table, id: OpId, rowid: int, owner: nat) {
    id in table && table[id].rowid == rowid && table[id].owner == owner && table[id].state == Running
  }

  ghost predicate StatementOk(table: Table, statement: Statement, owner: nat) {
    match statement
    case Upsert(row) => row.id.Minted? && row.id !in table && row.owner == owner && row.state != Running
    case SetBySeq(id, rowid, writer, state) =>
      id.Minted? && writer == owner && state != Running && (rowid == -1 || RunningHere(table, id, rowid, owner))
    case SetClient(_, _, _, _) => false
  }

  ghost predicate QueueOk(table: Table, queue: seq<Statement>, owner: nat) {
    && (forall i | 0 <= i < |queue| :: StatementOk(table, queue[i], owner))
    && (forall i, j | 0 <= i < j < |queue| :: Target(queue[i]) != Target(queue[j]))
  }

  ghost predicate HasSeq(seqs: seq<Note>, id: OpId) {
    exists n :: n in seqs && n.id == id
  }

  ghost predicate ServerOk(table: Table, s: Server, server: nat) {
    && s.instance == server && s.maxlen >= 1
    && QueueOk(table, s.queue, server)
    && (forall n | n in s.seqs :: n.id.Minted? && RunningHere(table, n.id, n.rowid, server) && Queued(s.queue, n.id).None?)
    && (forall i, j | 0 <= i < j < |s.seqs| :: s.seqs[i].id != s.seqs[j].id)
    && (forall id | id in s.deferred :: id.Minted? && id !in table && Queued(s.queue, id).None?)
  }

  /** How a server's own call stands in the books. */
  ghost predicate CallOk(w: World, ticket: nat)
    requires ticket in w.calls
  {
    var call := w.calls[ticket];
    var id := call.record.id;
    id.Minted? ==>
      && call.ended != Some(Running)
      && (id in w.table ==> w.table[id].owner == call.server && w.table[id].request == call.record.request)
      && if call.server in w.alive && call.server in w.servers then LiveCallOk(w, ticket, w.servers[call.server])
         else DeadCallOk(w, ticket)
  }

  ghost predicate LiveCallOk(w: World, ticket: nat, s: Server)
    requires ticket in w.calls
  {
    var call := w.calls[ticket];
    var id := call.record.id;
    var queued := Queued(s.queue, id);
    if call.ended.None? then
      queued.None? &&
      if call.record.request.readOnly then id in s.deferred && id !in w.table && ticket !in w.lost
      else
        && id !in s.deferred && id in w.table && w.table[id].state == Running
        && (Note(id, w.table[id].rowid) in s.seqs <==> ticket !in w.lost)
    else
      && id !in s.deferred && !HasSeq(s.seqs, id)
      && if queued.Some? && !(queued.value.SetBySeq? && queued.value.rowid == -1) then
           Final(queued.value) == call.ended.value && ticket !in w.lost && (queued.value.Upsert? <==> call.record.request.readOnly)
           && (queued.value.Upsert? ==> queued.value.row.request == call.record.request)
         else if ticket in w.lost then !call.record.request.readOnly && id in w.table && w.table[id].state == Running
         else if id in w.table then w.table[id].state == call.ended.value
         else id in w.retired
  }

  function Final(statement: Statement): State {
    match statement
    case Upsert(row) => row.state
    case SetBySeq(_, _, _, state) => state
    case SetClient(_, _, state, _) => state
  }

  /** A killed server's call: its final state if it was written, or its running row - reconciled once
      a server looked - or, for a read, no row at all. */
  ghost predicate DeadCallOk(w: World, ticket: nat)
    requires ticket in w.calls
  {
    var call := w.calls[ticket];
    var id := call.record.id;
    && (id !in w.table ==> call.record.request.readOnly || id in w.retired)
    && (id in w.table ==>
          || Some(w.table[id].state) == call.ended
          || (w.table[id].state == Running && !call.record.request.readOnly)
          || (w.table[id].state == UnknownCommit && !call.record.request.readOnly))
  }

  ghost predicate ServersOk(w: World) {
    forall server | server in w.alive :: server in w.servers && ServerOk(w.table, w.servers[server], server)
  }

  /** Every minted id belongs to one call, and only that call's server mentions it. */
  ghost predicate Registered(w: World) {
    && (forall ticket | ticket in w.calls :: w.calls[ticket].server in w.servers && w.calls[ticket].record.ticket == ticket)
    && (forall ticket | ticket in w.calls && w.calls[ticket].record.id.Minted? ::
          w.calls[ticket].record.id in w.tickets && w.tickets[w.calls[ticket].record.id] == ticket)
    && (forall id | id in w.tickets :: id.Minted? && w.tickets[id] in w.calls && w.calls[w.tickets[id]].record.id == id)
    && (forall id | id in w.table && id.Minted? :: id in w.tickets)
    && (forall ticket | ticket in w.lost :: ticket in w.calls)
  }

  ghost predicate MentionsOk(w: World)
    requires Registered(w)
  {
    forall server, id | server in w.alive && server in w.servers && Mentions(w.servers[server], id) ::
      id in w.tickets && w.calls[w.tickets[id]].server == server
  }

  ghost predicate CallsOk(w: World) {
    forall ticket | ticket in w.calls :: CallOk(w, ticket)
  }

  ghost predicate Books(w: World) {
    TableOk(w.table) && ServersOk(w) && Registered(w) && MentionsOk(w) && CallsOk(w)
  }

  ghost predicate Mentions(s: Server, id: OpId) {
    Queued(s.queue, id).Some? || id in s.deferred || HasSeq(s.seqs, id)
  }

  lemma OwnerOfMention(w: World, server: nat, id: OpId)
    requires Registered(w) && MentionsOk(w) && server in w.alive && server in w.servers && Mentions(w.servers[server], id)
    ensures id in w.tickets && w.calls[w.tickets[id]].server == server
  {
  }

  /** No server came to mention an id. */
  ghost predicate NoNewMention(w: World, w': World) {
    forall server, id | server in w'.alive && server in w'.servers && Mentions(w'.servers[server], id) ::
      server in w.alive && server in w.servers && Mentions(w.servers[server], id)
  }

  lemma MentionsFrame(w: World, w': World)
    requires Registered(w) && MentionsOk(w) && Registered(w') && NoNewMention(w, w')
    requires forall id | id in w.tickets ::
      id in w'.tickets && w'.tickets[id] == w.tickets[id] && w'.calls[w.tickets[id]].server == w.calls[w.tickets[id]].server
    ensures MentionsOk(w')
  {
    forall server, id | server in w'.alive && server in w'.servers && Mentions(w'.servers[server], id)
      ensures id in w'.tickets && w'.calls[w'.tickets[id]].server == server
    {
      OwnerOfMention(w, server, id);
    }
  }

  // One queued statement committed keeps the books; so a whole flush does.

  ghost function CommitFirst(w: World, server: nat): World
    requires server in w.servers && w.servers[server].queue != []
  {
    var s := w.servers[server];
    w.(table := Execute(w.table, s.queue[0]), servers := w.servers[server := s.(queue := s.queue[1..])])
  }

  lemma CommitFirstKeepsServer(table: Table, s: Server, server: nat)
    requires TableOk(table) && ServerOk(table, s, server) && s.queue != []
    ensures var table' := Execute(table, s.queue[0]);
      TableOk(table') && ServerOk(table', s.(queue := s.queue[1..]), server)
  {
    hide NextRowid, HasSeq;
    var table' := Execute(table, s.queue[0]);
    assert StatementOk(table, s.queue[0], server);
    var rest := s.queue[1..];
    forall i | 0 <= i < |rest| ensures StatementOk(table', rest[i], server) {
      assert rest[i] == s.queue[i + 1];
      assert StatementOk(table, s.queue[i + 1], server);
      assert Target(s.queue[0]) != Target(s.queue[i + 1]);
    }
  }

  lemma MentionsOfRest(s: Server, id: OpId)
    requires s.queue != []
    ensures Queued(s.queue[1..], id).Some? ==> Queued(s.queue, id).Some?
    ensures Mentions(s.(queue := s.queue[1..]), id) ==> Mentions(s, id)
  {
    if Queued(s.queue[1..], id).Some? {
      assert Queued(s.queue[1..], id).value in s.queue;
    }
  }

  lemma CommitFirstKeepsOthers(w: World, server: nat, other: nat)
    requires Books(w) && server in w.alive && w.servers[server].queue != []
    requires other in w.alive && other != server
    ensures ServerOk(Execute(w.table, w.servers[server].queue[0]), w.servers[other], other)
  {
    hide NextRowid, CallsOk, TableOk;
    var s, o := w.servers[server], w.servers[other];
    var st := s.queue[0];
    assert StatementOk(w.table, st, server);
    assert Queued(s.queue, Target(st)).Some?;
    OwnerOfMention(w, server, Target(st));
    if Mentions(o, Target(st)) {
      OwnerOfMention(w, other, Target(st));
    }
    forall i | 0 <= i < |o.queue| ensures StatementOk(Execute(w.table, st), o.queue[i], other) {
      assert StatementOk(w.table, o.queue[i], other);
      assert Queued(o.queue, Target(o.queue[i])).Some?;
    }
  }

  lemma CommitFirstKeepsCall(w: World, server: nat, ticket: nat)
    requires Books(w) && server in w.alive && w.servers[server].queue != [] && ticket in w.calls
    ensures CallOk(CommitFirst(w, server), ticket)
  {
    var w' := CommitFirst(w, server);
    var s := w.servers[server];
    var st := s.queue[0];
    var call := w.calls[ticket];
    var id := call.record.id;
    assert CallOk(w, ticket);
    assert StatementOk(w.table, st, server);
    assert Queued(s.queue, Target(st)).Some?;
    assert Mentions(s, Target(st));
    if id.Minted? {
      MentionsOfRest(s, id);
      if Target(st) == id {
        assert Queued(s.queue[1..], id).None?;
        assert call.server == server;
      } else {
        assert Queued(s.queue, id) == Queued(s.queue[1..], id);
      }
    }
  }

  lemma CommitFirstKeepsRegistered(w: World, server: nat)
    requires Registered(w) && server in w.servers && w.servers[server].queue != []
    requires Target(w.servers[server].queue[0]) in w.tickets
    ensures Registered(CommitFirst(w, server))
  {
    var w' := CommitFirst(w, server);
    assert w'.table.Keys <= w.table.Keys + {Target(w.servers[server].queue[0])};
  }

  lemma CommitFirstMentions(w: World, server: nat)
    requires server in w.servers && w.servers[server].queue != []
    ensures NoNewMention(w, CommitFirst(w, server))
  {
    var w' := CommitFirst(w, server);
    forall other, id | other in w'.alive && other in w'.servers && Mentions(w'.servers[other], id)
      ensures Mentions(w.servers[other], id)
    {
      if other == server {
        MentionsOfRest(w.servers[server], id);
      }
    }
  }

  lemma CommitFirstKeepsBooks(w: World, server: nat)
    requires Books(w) && server in w.alive && w.servers[server].queue != []
    ensures Books(CommitFirst(w, server))
  {
    var w' := CommitFirst(w, server);
    var s := w.servers[server];
    CommitFirstKeepsServer(w.table, s, server);
    assert Queued(s.queue, Target(s.queue[0])).Some?;
    OwnerOfMention(w, server, Target(s.queue[0]));
    CommitFirstKeepsRegistered(w, server);
    CommitFirstMentions(w, server);
    MentionsFrame(w, w');
    assert ServersOk(w') by {
      forall other | other in w'.alive ensures other in w'.servers && ServerOk(w'.table, w'.servers[other], other) {
        if other != server {
          CommitFirstKeepsOthers(w, server, other);
        }
      }
    }
    assert CallsOk(w') by {
      forall ticket | ticket in w'.calls ensures CallOk(w', ticket) {
        CommitFirstKeepsCall(w, server, ticket);
      }
    }
  }

  ghost function Flushed(w: World, server: nat): World
    requires server in w.servers
  {
    var (s', table') := FlushF(w.servers[server], w.table);
    w.(table := table', servers := w.servers[server := s'])
  }

  lemma FlushedStep(w: World, server: nat)
    requires server in w.servers
    ensures if w.servers[server].queue == [] then Flushed(w, server) == w
            else Flushed(CommitFirst(w, server), server) == Flushed(w, server)
  {
    var s := w.servers[server];
    assert w.servers[server := s] == w.servers;
    if s.queue != [] {
      assert CommitFirst(w, server).servers[server := s.(queue := [])] == w.servers[server := s.(queue := [])];
    }
  }

  /** Flush, one statement at a time. */
  lemma {:induction false} FlushKeepsBooks(w: World, server: nat)
    requires Books(w) && server in w.alive
    ensures Books(Flushed(w, server))
    decreases |w.servers[server].queue|
  {
    FlushedStep(w, server);
    if w.servers[server].queue != [] {
      CommitFirstKeepsBooks(w, server);
      FlushKeepsBooks(CommitFirst(w, server), server);
    }
  }

  // Every other event keeps the books.

  lemma KillKeepsBooks(w: World, e: Event)
    requires Books(w) && e.Kill? && Enabled(w, e)
    ensures Books(Next(w, e))
  {
    forall ticket | ticket in w.calls ensures CallOk(Next(w, e), ticket) {
      assert CallOk(w, ticket);
    }
  }

  /** A server's books stand while its running rows do and no row it mentions appears. */
  lemma ServerFrame(table: Table, table': Table, s: Server, server: nat)
    requires ServerOk(table, s, server)
    requires forall id | id in table && table[id].owner == server && table[id].state == Running && id.Minted? ::
      id in table' && table'[id] == table[id]
    requires forall id: OpId | id.Minted? && id in table' :: id in table || !Mentions(s, id)
    ensures ServerOk(table', s, server)
  {
    forall i | 0 <= i < |s.queue| ensures StatementOk(table', s.queue[i], server) {
      assert StatementOk(table, s.queue[i], server);
      assert Queued(s.queue, Target(s.queue[i])).Some?;
      assert Mentions(s, Target(s.queue[i]));
    }
    forall id | id in s.deferred ensures id !in table' {
      assert Mentions(s, id);
    }
  }

  lemma OpenKeepsBooks(w: World, e: Event)
    requires Books(w) && e.Open? && Enabled(w, e)
    ensures Books(Next(w, e))
  {
    var w' := Next(w, e);
    assert ServersOk(w') by {
      forall server | server in w'.alive ensures server in w'.servers && ServerOk(w'.table, w'.servers[server], server) {
        if server != e.server {
          ServerFrame(w.table, w'.table, w.servers[server], server);
        }
      }
    }
    assert Registered(w');
    assert CallsOk(w') by {
      forall ticket | ticket in w.calls ensures CallOk(w', ticket) {
        OpenKeepsCall(w, e, ticket);
      }
    }
    MentionsFrame(w, w');
  }

  lemma OpenKeepsCall(w: World, e: Event, ticket: nat)
    requires Registered(w) && e.Open? && Enabled(w, e) && ticket in w.calls && CallOk(w, ticket)
    ensures CallOk(Next(w, e), ticket)
  {
  }

  /** The fields of a server the books read. */
  predicate SameBooks(s: Server, s': Server) {
    s'.instance == s.instance && s'.maxlen == s.maxlen && s'.queue == s.queue && s'.seqs == s.seqs && s'.deferred == s.deferred
  }

  /** Between the two only client ids' rows, servers' memories, clients' calls and workers differ. */
  ghost predicate ClientChange(w: World, w': World) {
    && (forall id: OpId | id.Minted? :: (id in w'.table <==> id in w.table) && (id in w.table ==> w'.table[id] == w.table[id]))
    && w'.servers.Keys == w.servers.Keys && w'.alive == w.alive && w'.tickets == w.tickets
    && (forall server | server in w.servers :: SameBooks(w.servers[server], w'.servers[server]))
    && w'.retired == w.retired && w'.lost == w.lost
    && w.calls.Keys <= w'.calls.Keys
    && (forall ticket | ticket in w'.calls :: w'.calls[ticket].record.ticket == ticket && w'.calls[ticket].server in w.servers)
    && (forall ticket | ticket in w'.calls :: var call := w'.calls[ticket];
          if ticket in w.calls && w.calls[ticket].record.id.Minted? then call == w.calls[ticket].(worker := call.worker)
          else call.record.id.Client?)
  }

  lemma ClientChangeServers(w: World, w': World)
    requires ServersOk(w) && ClientChange(w, w')
    ensures ServersOk(w')
  {
    hide QueueOk, HasSeq;
    forall server | server in w'.alive ensures server in w'.servers && ServerOk(w'.table, w'.servers[server], server) {
      assert ServerOk(w.table, w.servers[server], server);
      ServerFrame(w.table, w'.table, w.servers[server], server);
      SameBooksOk(w'.table, w.servers[server], w'.servers[server], server);
    }
  }

  lemma SameBooksOk(table: Table, s: Server, s': Server, server: nat)
    requires ServerOk(table, s, server) && SameBooks(s, s')
    ensures ServerOk(table, s', server)
  {
    hide QueueOk;
  }

  lemma ClientChangeCalls(w: World, w': World)
    requires CallsOk(w) && ClientChange(w, w')
    ensures CallsOk(w')
  {
    hide LiveCallOk, DeadCallOk;
    forall ticket | ticket in w'.calls ensures CallOk(w', ticket) {
      if ticket in w.calls && w.calls[ticket].record.id.Minted? {
        assert CallOk(w, ticket);
        CallFrame(w, w', ticket);
      }
    }
  }

  lemma ClientChangeRegistered(w: World, w': World)
    requires Registered(w) && ClientChange(w, w')
    ensures Registered(w')
  {
  }

  lemma ClientChangeKeepsBooks(w: World, w': World)
    requires Books(w) && TableOk(w'.table) && ClientChange(w, w')
    ensures Books(w')
  {
    hide TableOk, ServersOk, CallsOk;
    ClientChangeServers(w, w');
    ClientChangeRegistered(w, w');
    ClientChangeCalls(w, w');
    hide ServerOk, CallOk;
    MentionsFrame(w, w');
  }

  /** Two servers' books agree on one id. */
  ghost predicate SameFor(s: Server, s': Server, id: OpId) {
    && Queued(s'.queue, id) == Queued(s.queue, id)
    && (id in s'.deferred <==> id in s.deferred)
    && (forall rowid: int :: Note(id, rowid) in s'.seqs <==> Note(id, rowid) in s.seqs)
  }

  lemma CallFrame(w: World, w': World, ticket: nat)
    requires ticket in w.calls && CallOk(w, ticket) && w.calls[ticket].record.id.Minted?
    requires ticket in w'.calls && w'.calls[ticket] == w.calls[ticket].(worker := w'.calls[ticket].worker)
    requires var id := w.calls[ticket].record.id;
      (id in w'.table <==> id in w.table) && (id in w.table ==> w'.table[id] == w.table[id])
    requires var server := w.calls[ticket].server;
      && (server in w'.servers <==> server in w.servers) && (server in w'.alive <==> server in w.alive)
      && (server in w.servers ==> SameFor(w.servers[server], w'.servers[server], w.calls[ticket].record.id))
    requires w'.retired == w.retired && (ticket in w'.lost <==> ticket in w.lost)
    ensures CallOk(w', ticket)
  {
  }

  lemma ClientWriteKeepsTable(table: Table, statement: Statement)
    requires TableOk(table) && !statement.SetBySeq? && Target(statement).Client?
    ensures TableOk(Execute(table, statement))
  {
  }

  ghost function BegunRecord(e: Event): Record
    requires e.Begin?
  {
    Record(e.ticket, e.id, e.request, Running)
  }

  /** `w1` with the client's admitted call begun after a flush. */
  ghost predicate AdmittedAfterFlush(w1: World, w': World, e: Event)
    requires e.Begin? && e.server in w1.servers
  {
    var s := w1.servers[e.server];
    w' == w1.(table := Execute(Flushed(w1, e.server).table, Upsert(RowOf(BegunRecord(e), s.instance, Running, None))),
              servers := w1.servers[e.server := Remembered(s, BegunRecord(e)).(queue := [])],
              calls := w1.calls[e.ticket := Call(e.server, BegunRecord(e), true, None)])
  }

  predicate Admits(w: World, e: Event)
    requires e.Begin? && e.server in w.servers
  {
    e.id.Minted? || Judge(Lookup(w.servers[e.server], w.table, e.id, e.seen), e.request, Record(e.ticket, e.id, e.request, Running)).Admitted?
  }

  function AfterLookup(w: World, e: Event): World
    requires e.Begin? && e.server in w.servers
  {
    w.(table := Reconciled(w.servers[e.server], w.table, e.id, e.seen))
  }

  /** A client's begin is the reconcile, then - if admitted - a flush, then its running row. */
  lemma BeginClientShape(w: World, e: Event)
    requires e.Begin? && e.id.Client? && Enabled(w, e)
    ensures if Admits(w, e) then AdmittedAfterFlush(AfterLookup(w, e), Next(w, e), e) else Next(w, e) == AfterLookup(w, e)
  {
    var s := w.servers[e.server];
    var running := Upsert(RowOf(BegunRecord(e), s.instance, Running, None));
    var w1 := AfterLookup(w, e);
    var table2 := Flushed(w1, e.server).table;
    ExecuteAllAppend(w1.table, s.queue, [running]);
    assert ExecuteAll(table2, [running]) == Execute(table2, running);
    assert w.servers[e.server := s] == w.servers;
  }

  lemma AfterLookupIsClientChange(w: World, e: Event)
    requires TableOk(w.table) && Registered(w) && e.Begin? && e.id.Client? && e.server in w.servers
    ensures TableOk(AfterLookup(w, e).table) && ClientChange(w, AfterLookup(w, e))
  {
  }

  lemma AfterLookupKeepsBooks(w: World, e: Event)
    requires Books(w) && e.Begin? && e.id.Client? && e.server in w.servers
    ensures Books(AfterLookup(w, e))
  {
    hide ClientChange, AfterLookup;
    AfterLookupIsClientChange(w, e);
    ClientChangeKeepsBooks(w, AfterLookup(w, e));
  }

  lemma BeginClientKeepsBooks(w: World, e: Event)
    requires Books(w) && e.Begin? && e.id.Client? && Enabled(w, e)
    ensures Books(Next(w, e))
  {
    BeginClientShape(w, e);
    AfterLookupKeepsBooks(w, e);
    if Admits(w, e) {
      FlushKeepsBooks(AfterLookup(w, e), e.server);
      OpenedKeepsBooks(AfterLookup(w, e), Next(w, e), e);
    }
  }

  lemma OpenedKeepsBooks(w1: World, w': World, e: Event)
    requires e.Begin? && e.id.Client? && e.server in w1.servers && e.ticket !in w1.calls
    requires Books(Flushed(w1, e.server)) && AdmittedAfterFlush(w1, w', e)
    ensures Books(w')
  {
    var w2 := Flushed(w1, e.server);
    ClientWriteKeepsTable(w2.table, Upsert(RowOf(BegunRecord(e), w1.servers[e.server].instance, Running, None)));
    OpenedIsClientChange(w1, w', e);
    ClientChangeKeepsBooks(w2, w');
  }

  lemma OpenedIsClientChange(w1: World, w': World, e: Event)
    requires e.Begin? && e.id.Client? && e.server in w1.servers && e.ticket !in w1.calls
    requires Registered(Flushed(w1, e.server)) && AdmittedAfterFlush(w1, w', e)
    ensures ClientChange(Flushed(w1, e.server), w')
  {
    hide ExecuteAll;
  }

  ghost function ClientFinal(w: World, e: Event): Statement
    requires e.Finish? && Enabled(w, e)
  {
    var call := w.calls[e.ticket];
    SetClient(call.record.id, w.servers[call.server].instance, e.state,
              if e.answer.Some? then Some(Stored(e.answer.value, e.kept)) else None)
  }

  /** A client's finish is a flush, then its final state. */
  lemma FinishClientShape(w: World, e: Event)
    requires e.Finish? && Enabled(w, e) && w.calls[e.ticket].record.id.Client?
    requires w.calls[e.ticket].record.id !in w.servers[w.calls[e.ticket].server].deferred
    ensures var call := w.calls[e.ticket];
      var s := w.servers[call.server];
      && Next(w, e).table == Execute(Flushed(w, call.server).table, ClientFinal(w, e))
      && Next(w, e).servers == w.servers[call.server := Closed(s, call.record, e.state, e.answer).(queue := [], deferred := s.deferred - {call.record.id})]
  {
    var call := w.calls[e.ticket];
    var flushed := Flushed(w, call.server);
    ExecuteAllAppend(w.table, w.servers[call.server].queue, [ClientFinal(w, e)]);
    assert ExecuteAll(flushed.table, [ClientFinal(w, e)]) == Execute(flushed.table, ClientFinal(w, e));
  }

  lemma FinishIsClientChange(w: World, e: Event)
    requires e.Finish? && Enabled(w, e) && w.calls[e.ticket].record.id.Client? && Registered(w)
    requires w.calls[e.ticket].record.id !in w.servers[w.calls[e.ticket].server].deferred
    ensures ClientChange(Flushed(w, w.calls[e.ticket].server), Next(w, e))
  {
    hide ExecuteAll, Books;
    FinishClientShape(w, e);
    var s := w.servers[w.calls[e.ticket].server];
    assert s.deferred - {w.calls[e.ticket].record.id} == s.deferred;
  }

  lemma FinishClientKeepsBooks(w: World, e: Event)
    requires Books(w) && e.Finish? && Enabled(w, e) && w.calls[e.ticket].record.id.Client?
    ensures Books(Next(w, e))
  {
    var server := w.calls[e.ticket].server;
    assert ServerOk(w.table, w.servers[server], server);
    FinishClientShape(w, e);
    FlushKeepsBooks(w, server);
    ClientWriteKeepsTable(Flushed(w, server).table, ClientFinal(w, e));
    FinishIsClientChange(w, e);
    ClientChangeKeepsBooks(Flushed(w, server), Next(w, e));
  }

  lemma WorkKeepsBooks(w: World, e: Event)
    requires Books(w) && e.Work? && Enabled(w, e)
    ensures Books(Next(w, e))
  {
    ClientChangeKeepsBooks(w, Next(w, e));
  }

  // A server's own call.

  /** An id no call was given is in no books. */
  lemma NeverMentioned(w: World, id: OpId)
    requires Registered(w) && MentionsOk(w) && id.Minted? && id !in w.tickets
    ensures id !in w.table
    ensures forall server | server in w.alive && server in w.servers :: !Mentions(w.servers[server], id)
  {
    forall server | server in w.alive && server in w.servers ensures !Mentions(w.servers[server], id) {
      if Mentions(w.servers[server], id) {
        OwnerOfMention(w, server, id);
      }
    }
  }

  /** Between the two only `ticket`'s call, its row and what its server's books say of it differ. */
  ghost predicate OwnChange(w: World, w': World, server: nat, ticket: nat) {
    && server in w.alive && server in w.servers && server in w'.servers && ticket in w'.calls
    && var call := w'.calls[ticket];
       var id := call.record.id;
    && id.Minted? && call.server == server && call.record.ticket == ticket
    && (id in w.tickets ==> w.tickets[id] == ticket) && (ticket in w.calls ==> w.calls[ticket].record.id == id && w.calls[ticket].server == server)
    && (id in w.table ==> w.table[id].owner == server)
    && (forall other | other != id :: (other in w'.table <==> other in w.table) && (other in w.table ==> w'.table[other] == w.table[other]))
    && w'.servers == w.servers[server := w'.servers[server]]
    && (forall other | other != id :: SameFor(w.servers[server], w'.servers[server], other))
    && w'.calls == w.calls[ticket := call] && w'.tickets == w.tickets[id := ticket]
    && w'.alive == w.alive && w'.retired == w.retired && w'.lost == w.lost
  }

  lemma OwnChangeKeepsBooks(w: World, w': World, server: nat, ticket: nat)
    requires Books(w) && OwnChange(w, w', server, ticket)
    requires TableOk(w'.table) && ServerOk(w'.table, w'.servers[server], server) && CallOk(w', ticket)
    ensures Books(w')
  {
    OwnChangeKeepsRegistered(w, w', server, ticket);
    OwnChangeKeepsServers(w, w', server, ticket);
    OwnChangeKeepsMentions(w, w', server, ticket);
    assert CallsOk(w') by {
      forall t | t in w'.calls ensures CallOk(w', t) {
        if t != ticket {
          assert CallOk(w, t);
          OwnChangeKeepsCall(w, w', server, ticket, t);
        }
      }
    }
  }

  lemma OwnChangeKeepsRegistered(w: World, w': World, server: nat, ticket: nat)
    requires Registered(w) && OwnChange(w, w', server, ticket)
    ensures Registered(w')
  {
  }

  lemma OwnChangeKeepsServers(w: World, w': World, server: nat, ticket: nat)
    requires ServersOk(w) && Registered(w) && MentionsOk(w) && OwnChange(w, w', server, ticket)
    requires ServerOk(w'.table, w'.servers[server], server)
    ensures ServersOk(w')
    ensures forall other | other in w.alive && other in w.servers && other != server ::
      !Mentions(w.servers[other], w'.calls[ticket].record.id)
  {
    var id := w'.calls[ticket].record.id;
    forall other | other in w.alive && other in w.servers && other != server ensures !Mentions(w.servers[other], id) {
      if Mentions(w.servers[other], id) {
        OwnerOfMention(w, other, id);
      }
    }
    forall other | other in w'.alive ensures other in w'.servers && ServerOk(w'.table, w'.servers[other], other) {
      if other != server {
        assert ServerOk(w.table, w.servers[other], other);
        ServerFrame(w.table, w'.table, w.servers[other], other);
      }
    }
  }

  lemma OwnChangeKeepsCall(w: World, w': World, server: nat, ticket: nat, other: nat)
    requires OwnChange(w, w', server, ticket) && other != ticket && other in w.calls
    requires Registered(w) && CallOk(w, other)
    ensures CallOk(w', other)
  {
    if w.calls[other].record.id.Client? {
      return;
    }
    assert w.calls[other].record.id != w'.calls[ticket].record.id;
    CallFrame(w, w', other);
  }

  lemma OwnChangeKeepsMentions(w: World, w': World, server: nat, ticket: nat)
    requires OwnChange(w, w', server, ticket) && Registered(w) && MentionsOk(w) && Registered(w')
    requires forall other | other in w.alive && other in w.servers && other != server :: !Mentions(w.servers[other], w'.calls[ticket].record.id)
    ensures MentionsOk(w')
  {
    forall other, id | other in w'.alive && other in w'.servers && Mentions(w'.servers[other], id)
      ensures id in w'.tickets && w'.calls[w'.tickets[id]].server == other
    {
      if id != w'.calls[ticket].record.id {
        assert SameFor(w.servers[other], w'.servers[other], id);
        assert Mentions(w.servers[other], id);
        OwnerOfMention(w, other, id);
      }
    }
  }

  lemma BeginReadKeepsBooks(w: World, e: Event)
    requires Books(w) && e.Begin? && e.id.Minted? && e.request.readOnly && Enabled(w, e)
    ensures Books(Next(w, e))
  {
    var w' := Next(w, e);
    NeverMentioned(w, e.id);
    var s := w.servers[e.server];
    assert ServerOk(w.table, s, e.server) && !Mentions(s, e.id);
    BeginReadChange(w, e);
    OwnChangeKeepsBooks(w, w', e.server, e.ticket);
  }

  lemma BeginReadChange(w: World, e: Event)
    requires e.Begin? && e.id.Minted? && e.request.readOnly && Enabled(w, e)
    requires TableOk(w.table) && ServerOk(w.table, w.servers[e.server], e.server) && e.id !in w.table && !Mentions(w.servers[e.server], e.id)
    requires e.ticket !in w.lost
    ensures var w' := Next(w, e);
      && OwnChange(w, w', e.server, e.ticket) && w'.table == w.table
      && ServerOk(w'.table, w'.servers[e.server], e.server) && CallOk(w', e.ticket)
  {
  }

  lemma {:induction false} ForgottenAbsent(seqs: seq<Note>, id: OpId)
    requires !HasSeq(seqs, id)
    ensures Forgotten(seqs, id) == seqs
    decreases |seqs|
  {
    if seqs != [] {
      assert seqs[0] in seqs;
      ForgottenAbsent(seqs[1..], id);
    }
  }

  lemma {:induction false} QueuedAppend(queue: seq<Statement>, statement: Statement, id: OpId)
    ensures Queued(queue + [statement], id) ==
      if Queued(queue, id).Some? then Queued(queue, id) else if Target(statement) == id then Some(statement) else None
    decreases |queue|
  {
    if queue != [] {
      assert (queue + [statement])[1..] == queue[1..] + [statement];
      QueuedAppend(queue[1..], statement, id);
    }
  }

  /** The running row of a server's own writing call, noted, before an old note is dropped for it. */
  ghost function Noting(w: World, e: Event): World
    requires e.Begin? && e.server in w.servers
  {
    var s := w.servers[e.server];
    var table' := Execute(w.table, Upsert(RowOf(BegunRecord(e), s.instance, Running, None)));
    w.(table := table',
       servers := w.servers[e.server := Remembered(s, BegunRecord(e)).(seqs := s.seqs + [Note(e.id, table'[e.id].rowid)])],
       calls := w.calls[e.ticket := Call(e.server, BegunRecord(e), true, None)],
       tickets := w.tickets[e.id := e.ticket])
  }

  lemma NotingIsOwnChange(w: World, e: Event)
    requires e.Begin? && e.id.Minted? && !e.request.readOnly && Enabled(w, e)
    requires TableOk(w.table) && ServerOk(w.table, w.servers[e.server], e.server) && e.id !in w.table && !Mentions(w.servers[e.server], e.id)
    requires e.ticket !in w.lost
    ensures var w' := Noting(w, e);
      && OwnChange(w, w', e.server, e.ticket) && TableOk(w'.table)
      && ServerOk(w'.table, w'.servers[e.server], e.server) && CallOk(w', e.ticket)
  {
    var w' := Noting(w, e);
    var s, s' := w.servers[e.server], w'.servers[e.server];
    assert s'.seqs[|s.seqs|] == Note(e.id, w'.table[e.id].rowid);
    ServerFrame(w.table, w'.table, s, e.server);
    assert ServerOk(w'.table, s, e.server);
  }

  /** The oldest note of a running call's rowid dropped: that call is lost to the queue. */
  ghost function Dropping(w: World, server: nat): World
    requires server in w.servers && w.servers[server].seqs != [] && w.servers[server].seqs[0].id in w.tickets
  {
    var s := w.servers[server];
    w.(servers := w.servers[server := s.(seqs := s.seqs[1..])], lost := w.lost + {w.tickets[s.seqs[0].id]})
  }

  lemma DroppingKeepsCall(w: World, server: nat, ticket: nat)
    requires ServersOk(w) && Registered(w) && MentionsOk(w) && server in w.alive && ticket in w.calls && CallOk(w, ticket)
    requires w.servers[server].seqs != [] && w.servers[server].seqs[0].id in w.tickets
    ensures CallOk(Dropping(w, server), ticket)
  {
    var w' := Dropping(w, server);
    var s := w.servers[server];
    var dropped := s.seqs[0];
    assert ServerOk(w.table, s, server);
    assert dropped in s.seqs;
    OwnerOfMention(w, server, dropped.id);
    var id := w.calls[ticket].record.id;
    if id.Minted? {
      forall rowid: int | id != dropped.id ensures Note(id, rowid) in s.seqs[1..] <==> Note(id, rowid) in s.seqs {
        if Note(id, rowid) in s.seqs {
          var i :| 0 <= i < |s.seqs| && s.seqs[i] == Note(id, rowid);
          assert s.seqs[1..][i - 1] == Note(id, rowid);
        }
      }
      if id != dropped.id {
        assert w.tickets[dropped.id] != ticket;
        if w.calls[ticket].server == server {
          assert SameFor(s, w'.servers[server], id);
        }
        CallFrame(w, w', ticket);
      } else {
        assert ticket == w.tickets[dropped.id];
        forall i | 0 <= i < |s.seqs[1..]| ensures s.seqs[1..][i].id != id {
          assert s.seqs[1..][i] == s.seqs[i + 1];
        }
        assert HasSeq(s.seqs, id);
      }
    }
  }

  lemma DroppingKeepsServers(w: World, server: nat)
    requires ServersOk(w) && server in w.alive && w.servers[server].seqs != [] && w.servers[server].seqs[0].id in w.tickets
    ensures ServersOk(Dropping(w, server)) && NoNewMention(w, Dropping(w, server))
  {
    var w' := Dropping(w, server);
    var s, s' := w.servers[server], w'.servers[server];
    assert ServerOk(w.table, s, server);
    assert forall n | n in s'.seqs :: n in s.seqs;
  }

  lemma DroppingKeepsBooks(w: World, server: nat)
    requires Books(w) && server in w.alive
    requires w.servers[server].seqs != [] && w.servers[server].seqs[0].id in w.tickets
    ensures Books(Dropping(w, server))
  {
    hide TableOk, CallOk, QueueOk;
    var w' := Dropping(w, server);
    DroppingKeepsServers(w, server);
    assert CallsOk(w') by {
      forall ticket | ticket in w'.calls ensures CallOk(w', ticket) {
        assert CallOk(w, ticket);
        DroppingKeepsCall(w, server, ticket);
      }
    }
    MentionsFrame(w, w');
  }

  lemma BeginWriteShape(w: World, e: Event)
    requires e.Begin? && e.id.Minted? && !e.request.readOnly && Enabled(w, e)
    requires !HasSeq(w.servers[e.server].seqs, e.id) && w.servers[e.server].maxlen >= 1
    requires var seqs := w.servers[e.server].seqs; seqs != [] ==> seqs[0].id in w.tickets && seqs[0].id != e.id
    ensures var s, w1 := w.servers[e.server], Noting(w, e);
      if |s.seqs| + 1 > s.maxlen then w1.servers[e.server].seqs[0].id in w1.tickets && Next(w, e) == Dropping(w1, e.server)
      else Next(w, e) == w1
  {
    var s, w1 := w.servers[e.server], Noting(w, e);
    ForgottenAbsent(s.seqs, e.id);
    assert Next(w, e).table == w1.table;
    if |s.seqs| + 1 > s.maxlen {
      assert w1.servers[e.server].seqs[0] == s.seqs[0];
      assert Next(w, e).servers[e.server] == Dropping(w1, e.server).servers[e.server];
      assert Next(w, e).servers == Dropping(w1, e.server).servers;
    } else {
      assert Next(w, e).servers == w1.servers;
    }
  }

  lemma BeginWriteKeepsBooks(w: World, e: Event)
    requires Books(w) && e.Begin? && e.id.Minted? && !e.request.readOnly && Enabled(w, e)
    ensures Books(Next(w, e))
  {
    var s := w.servers[e.server];
    NeverMentioned(w, e.id);
    assert ServerOk(w.table, s, e.server) && !Mentions(s, e.id);
    if s.seqs != [] {
      assert s.seqs[0] in s.seqs;
      OwnerOfMention(w, e.server, s.seqs[0].id);
    }
    BeginWriteShape(w, e);
    NotingIsOwnChange(w, e);
    OwnChangeKeepsBooks(w, Noting(w, e), e.server, e.ticket);
    if |s.seqs| + 1 > s.maxlen {
      assert s.seqs[0] in s.seqs;
      DroppingKeepsBooks(Noting(w, e), e.server);
    }
  }

  /** A server's own call finished: its last write queued. */
  ghost function MintedFinal(w: World, e: Event): Statement
    requires e.Finish? && Enabled(w, e)
  {
    var call := w.calls[e.ticket];
    FinalStatement(w.servers[call.server], call.record, e.state, None)
  }

  lemma FinishMintedQueue(table: Table, s: Server, server: nat, statement: Statement)
    requires ServerOk(table, s, server) && StatementOk(table, statement, server)
    requires Queued(s.queue, Target(statement)).None? && Target(statement).Minted?
    ensures QueueOk(table, s.queue + [statement], server)
    ensures Queued(s.queue + [statement], Target(statement)) == Some(statement)
    ensures forall id | id != Target(statement) :: Queued(s.queue + [statement], id) == Queued(s.queue, id)
  {
    forall id {
      QueuedAppend(s.queue, statement, id);
    }
    forall i | 0 <= i < |s.queue| ensures Target(s.queue[i]) != Target(statement) {
      assert s.queue[i] in s.queue;
    }
  }

  lemma ForgottenDistinct(seqs: seq<Note>, id: OpId)
    requires forall i, j | 0 <= i < j < |seqs| :: seqs[i].id != seqs[j].id
    ensures var kept := Forgotten(seqs, id);
      forall i, j | 0 <= i < j < |kept| :: kept[i].id != kept[j].id
    decreases |seqs|
  {
    if seqs != [] {
      ForgottenDistinct(seqs[1..], id);
      var rest := Forgotten(seqs[1..], id);
      forall i | 0 <= i < |rest| ensures rest[i].id != seqs[0].id {
        assert rest[i] in rest;
      }
    }
  }

  /** The statement fits the row, and the shape of the server after it. */
  lemma FinishMintedShape(w: World, e: Event)
    requires e.Finish? && Enabled(w, e) && w.calls[e.ticket].record.id.Minted?
    requires TableOk(w.table) && CallOk(w, e.ticket)
    requires var call := w.calls[e.ticket]; ServerOk(w.table, w.servers[call.server], call.server)
    ensures var call := w.calls[e.ticket];
      var w' := Next(w, e);
      var s, s' := w.servers[call.server], w'.servers[call.server];
      && w'.table == w.table && w'.servers == w.servers[call.server := s']
      && Queued(s.queue, call.record.id).None? && StatementOk(w.table, MintedFinal(w, e), call.server)
      && Target(MintedFinal(w, e)) == call.record.id
      && s'.instance == s.instance && s'.maxlen == s.maxlen
      && s'.queue == s.queue + [MintedFinal(w, e)] && s'.deferred == s.deferred - {call.record.id}
      && s'.seqs == if call.record.id in s.deferred then s.seqs else Forgotten(s.seqs, call.record.id)
  {
    assert LiveCallOk(w, e.ticket, w.servers[w.calls[e.ticket].server]);
  }

  lemma QueuedKeepsServer(table: Table, s: Server, s': Server, server: nat, statement: Statement)
    requires ServerOk(table, s, server) && StatementOk(table, statement, server) && Target(statement).Minted?
    requires Queued(s.queue, Target(statement)).None?
    requires s'.instance == s.instance && s'.maxlen == s.maxlen
    requires s'.queue == s.queue + [statement] && s'.deferred == s.deferred - {Target(statement)}
    requires s'.seqs == if Target(statement) in s.deferred then s.seqs else Forgotten(s.seqs, Target(statement))
    ensures ServerOk(table, s', server)
    ensures forall id | id != Target(statement) :: SameFor(s, s', id)
    ensures Queued(s'.queue, Target(statement)) == Some(statement)
    ensures Target(statement) !in s'.deferred && !HasSeq(s'.seqs, Target(statement))
  {
    var id := Target(statement);
    FinishMintedQueue(table, s, server, statement);
    ForgottenDistinct(s.seqs, id);
    assert forall n | n in s'.seqs :: n in s.seqs && n.id != id;
    forall n | n in s'.seqs ensures n.id.Minted? && RunningHere(table, n.id, n.rowid, server) && Queued(s'.queue, n.id).None? {
      assert n in s.seqs;
    }
  }

  lemma FinishMintedServer(w: World, e: Event)
    requires e.Finish? && Enabled(w, e) && w.calls[e.ticket].record.id.Minted?
    requires TableOk(w.table) && CallOk(w, e.ticket)
    requires var call := w.calls[e.ticket]; ServerOk(w.table, w.servers[call.server], call.server)
    ensures var call := w.calls[e.ticket];
      var s, s' := w.servers[call.server], Next(w, e).servers[call.server];
      && ServerOk(w.table, s', call.server)
      && (forall id | id != call.record.id :: SameFor(s, s', id))
      && Queued(s'.queue, call.record.id) == Some(MintedFinal(w, e))
      && call.record.id !in s'.deferred && !HasSeq(s'.seqs, call.record.id)
  {
    var call := w.calls[e.ticket];
    FinishMintedShape(w, e);
    QueuedKeepsServer(w.table, w.servers[call.server], Next(w, e).servers[call.server], call.server, MintedFinal(w, e));
  }

  lemma FinishMintedKeepsBooks(w: World, e: Event)
    requires Books(w) && e.Finish? && Enabled(w, e) && w.calls[e.ticket].record.id.Minted?
    ensures Books(Next(w, e))
  {
    var call := w.calls[e.ticket];
    assert ServerOk(w.table, w.servers[call.server], call.server);
    assert CallOk(w, e.ticket);
    FinishMintedServer(w, e);
    FinishMintedCall(w, e);
    FinishMintedIsOwnChange(w, e);
    OwnChangeKeepsBooks(w, Next(w, e), call.server, e.ticket);
  }

  lemma FinishMintedCall(w: World, e: Event)
    requires e.Finish? && Enabled(w, e) && w.calls[e.ticket].record.id.Minted?
    requires TableOk(w.table) && CallOk(w, e.ticket)
    requires var call := w.calls[e.ticket]; ServerOk(w.table, w.servers[call.server], call.server)
    ensures CallOk(Next(w, e), e.ticket)
  {
    FinishMintedShape(w, e);
    FinishMintedServer(w, e);
    var call := w.calls[e.ticket];
    var s := w.servers[call.server];
    assert LiveCallOk(w, e.ticket, s);
  }

  lemma FinishMintedIsOwnChange(w: World, e: Event)
    requires e.Finish? && Enabled(w, e) && w.calls[e.ticket].record.id.Minted?
    requires Registered(w) && TableOk(w.table) && CallOk(w, e.ticket)
    requires var call := w.calls[e.ticket]; ServerOk(w.table, w.servers[call.server], call.server)
    ensures OwnChange(w, Next(w, e), w.calls[e.ticket].server, e.ticket)
  {
    FinishMintedShape(w, e);
    FinishMintedServer(w, e);
    assert w.tickets[w.calls[e.ticket].record.id := e.ticket] == w.tickets;
  }

  lemma NextKeepsBooks(w: World, e: Event)
    requires Books(w) && Enabled(w, e)
    ensures Books(Next(w, e))
  {
    match e
    case Open(_, _, _, _) => OpenKeepsBooks(w, e);
    case Begin(_, id, request, _, _) =>
      if id.Client? {
        BeginClientKeepsBooks(w, e);
      } else if request.readOnly {
        BeginReadKeepsBooks(w, e);
      } else {
        BeginWriteKeepsBooks(w, e);
      }
    case Work(_) => WorkKeepsBooks(w, e);
    case Finish(ticket, _, _, _) =>
      if w.calls[ticket].record.id.Client? {
        FinishClientKeepsBooks(w, e);
      } else {
        FinishMintedKeepsBooks(w, e);
      }
    case Flush(server) => FlushKeepsBooks(w, server);
    case Kill(_) => KillKeepsBooks(w, e);
  }

  lemma {:induction false} BooksAlwaysKept(worlds: seq<World>, events: seq<Event>, i: nat)
    requires IsRun(worlds, events) && i < |worlds|
    ensures Books(worlds[i])
  {
    if i > 0 {
      BooksAlwaysKept(worlds, events, i - 1);
      NextKeepsBooks(worlds[i - 1], events[i - 1]);
    }
  }
}
