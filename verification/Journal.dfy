/** The durable operation journal: backends/operations.py's bounded in-memory journal written through
    to a file by backends/journal_store.py.

    The functions say what each operation does to a server's memory and to the shared file; the class
    `DurableJournal` does it. The file is a table keyed by operation id: a client's id is unique by
    its index, a server's own by construction. sha256 over a request is injective, so a request
    stands for its hash. The file never refuses a write. */
module Journal {

  import opened Wrappers

  datatype OpId = Client(name: string) | Minted(uuid: nat)

  /** A call's tool and arguments; `readOnly` is the read-only test of its tool. */
  datatype Request = Request(tool: string, arguments: string, readOnly: bool)

  datatype State = Running | Committed | Partial | Failed | Refused | Quarantined | Cancelled | UnknownCommit

  predicate Replayable(state: State) {
    state in {Committed, Partial, Failed, Refused, Quarantined}
  }

  /** An answer as returned, or as replayed from a file that kept only its digest. */
  datatype Answer = Full(text: string) | Truncated(sha256: string)

  /** What the file keeps of an answer: all of it, or its sha256 when it is over the cap or the
      settings keep no text. */
  function Stored(answer: Answer, kept: bool): Answer {
    match answer
    case Full(text) => if kept then answer else Truncated(text)
    case Truncated(_) => answer
  }

  /** A record in memory; `ticket` is its identity as an object. */
  datatype Record = Record(ticket: nat, id: OpId, request: Request, state: State)

  datatype Row = Row(rowid: int, id: OpId, request: Request, state: State, owner: nat, answer: Option<Answer>)

  type Table = map<OpId, Row>

  /** A write: a row put in under the next rowid (or over its client id's row), a final state by rowid,
      or a final state by client id. `SetBySeq.id` names the call; the statement looks at `rowid`. */
  datatype Statement =
    | Upsert(row: Row)
    | SetBySeq(id: OpId, rowid: int, owner: nat, state: State)
    | SetClient(id: OpId, owner: nat, state: State, answer: Option<Answer>)

  /** An entry of the map from a running call to its row. */
  datatype Note = Note(id: OpId, rowid: int)

  datatype Server = Server(
    instance: nat, maxlen: nat, order: seq<OpId>, records: map<OpId, Record>, results: map<OpId, Answer>,
    queue: seq<Statement>, seqs: seq<Note>, deferred: set<OpId>)

  // ── the file ──

  lemma {:induction false} HasMaximum(s: set<int>, x: int)
    requires x in s
    ensures exists m :: m in s && forall y | y in s :: y <= m
    decreases |s|
  {
    var rest := s - {x};
    if z :| z in rest {
      HasMaximum(rest, z);
      var m :| m in rest && forall y | y in rest :: y <= m;
      var top := if x <= m then m else x;
      forall y | y in s ensures y <= top {
        assert y == x || y in rest;
      }
      assert top in s;
    } else {
      assert forall y | y in s :: y == x || y in rest;
    }
  }

  /** The rowid of the next row: one past the highest in the table. */
  ghost function NextRowid(table: Table): (next: int)
    ensures forall id | id in table :: table[id].rowid < next
    ensures 1 <= next
  {
    if some :| some in table then
      var rowids := set id | id in table :: table[id].rowid;
      HasMaximum(rowids, table[some].rowid);
      var m :| m in rowids && forall y | y in rowids :: y <= m;
      assert forall id | id in table :: table[id].rowid in rowids;
      if m < 0 then 1 else m + 1
    else 1
  }

  ghost function Execute(table: Table, statement: Statement): Table {
    match statement
    case Upsert(row) =>
      if row.id in table then table[row.id := row.(rowid := table[row.id].rowid)]
      else table[row.id := row.(rowid := NextRowid(table))]
    case SetBySeq(_, rowid, owner, state) =>
      map id | id in table ::
        if table[id].rowid == rowid && table[id].owner == owner then table[id].(state := state) else table[id]
    case SetClient(id, owner, state, answer) =>
      if id in table && table[id].owner == owner then table[id := table[id].(state := state, answer := answer)] else table
  }

  ghost function ExecuteAll(table: Table, statements: seq<Statement>): Table
    decreases |statements|
  {
    if statements == [] then table else ExecuteAll(Execute(table, statements[0]), statements[1..])
  }

  lemma {:induction false} ExecuteAllAppend(table: Table, a: seq<Statement>, b: seq<Statement>)
    ensures ExecuteAll(table, a + b) == ExecuteAll(ExecuteAll(table, a), b)
    decreases |a|
  {
    if a == [] {
      assert a + b == b;
    } else {
      assert (a + b)[1..] == a[1..] + b;
      ExecuteAllAppend(Execute(table, a[0]), a[1..], b);
    }
  }

  /** What becomes of a row found running after its server died: nothing is known of a write; a read
      wrote nothing. */
  function Orphaned(row: Row): Row {
    row.(state := if row.request.readOnly then Cancelled else UnknownCommit)
  }

  predicate OwnerDied(row: Row, instance: nat, alive: set<nat>) {
    row.state == Running && row.owner != instance && row.owner !in alive
  }

  ghost function Swept(table: Table, instance: nat, alive: set<nat>): Table {
    map id | id in table :: if OwnerDied(table[id], instance, alive) then Orphaned(table[id]) else table[id]
  }

  /** The ended rows among `expired`, those past their retention, deleted. */
  ghost function Retired(table: Table, expired: set<OpId>): Table {
    map id | id in table && !(id in expired && table[id].state != Running) :: table[id]
  }

  // ── memory ──

  function Without(order: seq<OpId>, id: OpId): (kept: seq<OpId>)
    ensures forall other :: other in kept <==> other in order && other != id
    ensures |kept| <= |order|
    decreases |order|
  {
    if order == [] then [] else (if order[0] == id then [] else [order[0]]) + Without(order[1..], id)
  }

  /** The oldest out while there are too many, their answers with them. */
  function Trimmed(s: Server): (kept: Server)
    ensures kept == s.(order := kept.order, records := kept.records, results := kept.results)
    decreases |s.order|
  {
    if |s.order| <= s.maxlen then s
    else Trimmed(s.(order := s.order[1..], records := s.records - {s.order[0]}, results := s.results - {s.order[0]}))
  }

  /** `_store`: an id's earlier record out, the new one last, then the oldest out. */
  function Remembered(s: Server, record: Record): (kept: Server)
    ensures kept == s.(order := kept.order, records := kept.records, results := kept.results)
  {
    Trimmed(s.(order := Without(s.order, record.id) + [record.id],
               records := s.records[record.id := record],
               results := s.results - {record.id}))
  }

  function SetState(records: map<OpId, Record>, ticket: nat, state: State): map<OpId, Record> {
    map id | id in records :: if records[id].ticket == ticket then records[id].(state := state) else records[id]
  }

  // ── lookup and begin ──

  /** What a known id's earlier run left: its request, its state and its answer if it has one. */
  datatype Prior = Prior(request: Request, state: State, answer: Option<Answer>)

  function Answered(results: map<OpId, Answer>, id: OpId): Option<Answer> {
    if id in results then Some(results[id]) else None
  }

  /** Memory first, then the file; a row whose server died is reconciled as it is read. */
  function Lookup(s: Server, table: Table, id: OpId, alive: set<nat>): Option<Prior> {
    if id in s.records then Some(Prior(s.records[id].request, s.records[id].state, Answered(s.results, id)))
    else if id in table then
      var row := if OwnerDied(table[id], s.instance, alive) then Orphaned(table[id]) else table[id];
      Some(Prior(row.request, row.state, row.answer))
    else None
  }

  /** The table after that lookup. */
  function Reconciled(s: Server, table: Table, id: OpId, alive: set<nat>): Table {
    if id !in s.records && id in table && OwnerDied(table[id], s.instance, alive)
    then table[id := Orphaned(table[id])] else table
  }

  datatype Begun =
    | DifferentRequest | InProgress | RequiresReconcile
    | Replay(answer: Answer)
    | Admitted(record: Record)

  /** What a lookup answers a client's id; `Admitted` carries the record the call would get. */
  function Judge(prior: Option<Prior>, request: Request, record: Record): Begun {
    match prior
    case None => Admitted(record)
    case Some(p) =>
      if p.request != request then DifferentRequest
      else if p.state == Running then InProgress
      else if p.state == UnknownCommit then RequiresReconcile
      else if Replayable(p.state) && p.answer.Some? then Replay(p.answer.value)
      else Admitted(record)
  }

  function RowOf(record: Record, owner: nat, state: State, answer: Option<Answer>): Row {
    Row(0, record.id, record.request, state, owner, answer)
  }

  function Forgotten(seqs: seq<Note>, id: OpId): (kept: seq<Note>)
    ensures forall n :: n in kept <==> n in seqs && n.id != id
    decreases |seqs|
  {
    if seqs == [] then [] else (if seqs[0].id == id then [] else [seqs[0]]) + Forgotten(seqs[1..], id)
  }

  function SeqFor(seqs: seq<Note>, id: OpId): (rowid: int)
    ensures (exists n :: n in seqs && n.id == id) ==> Note(id, rowid) in seqs
    ensures (forall n | n in seqs :: n.id != id) ==> rowid == -1
    decreases |seqs|
  {
    if seqs == [] then -1 else if seqs[0].id == id then seqs[0].rowid else SeqFor(seqs[1..], id)
  }

  /** `_seq[id] = rowid`, and the oldest entry dropped when there are more than `maxlen`. */
  function Noted(seqs: seq<Note>, id: OpId, rowid: int, maxlen: nat): seq<Note> {
    var noted := Forgotten(seqs, id) + [Note(id, rowid)];
    if |noted| > maxlen then noted[1..] else noted
  }

  /** The memory and the file after an admitted call: its running row committed before it runs, a
      client's with all that was queued before it; a read-only call's row is put off to its end. */
  ghost function Opened(s: Server, table: Table, record: Record): (Server, Table) {
    var s' := Remembered(s, record);
    var running := Upsert(RowOf(record, s.instance, Running, None));
    if record.id.Client? then (s'.(queue := []), ExecuteAll(table, s.queue + [running]))
    else if record.request.readOnly then (s'.(deferred := s.deferred + {record.id}), table)
    else
      var table' := Execute(table, running);
      (s'.(seqs := Noted(s.seqs, record.id, table'[record.id].rowid, s.maxlen)), table')
  }

  ghost function BeginF(s: Server, table: Table, record: Record, alive: set<nat>): (Begun, Server, Table) {
    if record.id.Client? then
      var table' := Reconciled(s, table, record.id, alive);
      var begun := Judge(Lookup(s, table, record.id, alive), record.request, record);
      if begun.Admitted? then
        var (s'', table'') := Opened(s, table', record);
        (begun, s'', table'')
      else (begun, s, table')
    else
      var (s', table') := Opened(s, table, record);
      (Admitted(record), s', table')
  }

  // ── finish and flush ──

  /** The memory's half of `finish`: the record closed, a client's answer kept for replay. */
  function Closed(s: Server, record: Record, state: State, answer: Option<Answer>): Server {
    s.(records := SetState(s.records, record.ticket, state),
       results := if answer.Some? && record.id.Client? && record.id in s.records && s.records[record.id].ticket == record.ticket
                  then s.results[record.id := answer.value] else s.results)
  }

  /** The write a finished call needs. */
  function FinalStatement(s: Server, record: Record, state: State, stored: Option<Answer>): Statement {
    if record.id in s.deferred then Upsert(RowOf(record, s.instance, state, stored))
    else if record.id.Client? then SetClient(record.id, s.instance, state, stored)
    else SetBySeq(record.id, SeqFor(s.seqs, record.id), s.instance, state)
  }

  ghost function FinishF(s: Server, table: Table, record: Record, state: State, answer: Option<Answer>, kept: bool): (Server, Table) {
    var stored := if record.id.Client? && answer.Some? then Some(Stored(answer.value, kept)) else None;
    var statement := FinalStatement(s, record, state, stored);
    var s' := Closed(s, record, state, answer).(
      deferred := s.deferred - {record.id},
      seqs := if record.id in s.deferred || record.id.Client? then s.seqs else Forgotten(s.seqs, record.id));
    if record.id.Client? then (s'.(queue := []), ExecuteAll(table, s.queue + [statement]))
    else (s'.(queue := s.queue + [statement]), table)
  }

  ghost function FlushF(s: Server, table: Table): (Server, Table) {
    (s.(queue := []), ExecuteAll(table, s.queue))
  }
}
