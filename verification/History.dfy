/** `drawing_history`: the keyset-paged read of the durable journal (backends/journal_store.py) and the
    in-memory one it replaces (backends/operations.py).

    A log is its rows oldest first, their sequence numbers increasing. The text tests of
    `history_row_matches` (`query`, `handle`) and the caller's `skip` are parameters. */
module History {

  import opened Wrappers

  datatype Row = Row(sq: nat, documentId: Option<string>, lineageId: Option<string>, tool: string, running: bool, tag: Option<string>)

  datatype Filter = Filter(
    documentId: string, lineageId: Option<string>, since: Option<int>, tool: Option<string>, tag: Option<string>,
    skip: Option<string -> bool>, matches: Row -> bool)

  predicate Sorted(log: seq<Row>) {
    forall i, j | 0 <= i < j < |log| :: log[i].sq < log[j].sq
  }

  function Take<T>(s: seq<T>, n: int): seq<T> {
    if n <= 0 then [] else if n < |s| then s[..n] else s
  }

  /** The tests common to both journals but the one of the row's document. */
  predicate Narrowed(f: Filter, row: Row) {
    && !row.running
    && (f.since.Some? ==> row.sq > f.since.value)
    && (f.tool.Some? ==> row.tool == f.tool.value)
    && (f.tag.Some? ==> row.tag == f.tag)
  }

  predicate Unskipped(f: Filter, row: Row) {
    !(f.skip.Some? && f.tool.None? && f.skip.value(row.tool)) && f.matches(row)
  }

  /** The `WHERE` clause: an empty lineage is no lineage. */
  predicate Selects(f: Filter, row: Row) {
    && (row.documentId == Some(f.documentId) || (f.lineageId.Some? && f.lineageId.value != "" && row.lineageId == f.lineageId))
    && Narrowed(f, row)
  }

  /** `_mine`. */
  predicate Mine(f: Filter, row: Row) {
    row.documentId == Some(f.documentId) || (f.lineageId.Some? && row.lineageId == f.lineageId)
  }

  // ── what a history is: filter the whole log, newest first, and take ──

  /** What the durable journal answers from. The first page starts below 2^62. */
  function FirstCursor(): int {
    0x4000_0000_0000_0000
  }

  predicate Numbered(log: seq<Row>) {
    forall i | 0 <= i < |log| :: log[i].sq < FirstCursor()
  }

  predicate Shown(f: Filter, row: Row) {
    Selects(f, row) && row.sq < FirstCursor() && Unskipped(f, row)
  }

  function FileRows(log: seq<Row>, f: Filter): seq<Row>
    decreases |log|
  {
    if log == [] then []
    else
      var last := log[|log| - 1];
      (if Shown(f, last) then [last] else []) + FileRows(log[..|log| - 1], f)
  }

  predicate Remembered(f: Filter, row: Row) {
    Mine(f, row) && Narrowed(f, row) && Unskipped(f, row)
  }

  function MemoryRows(log: seq<Row>, f: Filter): seq<Row>
    decreases |log|
  {
    if log == [] then []
    else
      var last := log[|log| - 1];
      (if Remembered(f, last) then [last] else []) + MemoryRows(log[..|log| - 1], f)
  }

  /** A row a history answers with: this document's or, as the file and the memory each mean it, this
      lineage's; of a call that ended; of the tool, label and later numbers asked for, if they are; not one
      the caller skips when no tool is asked for; and passing the text tests. */
  predicate Asked(f: Filter, row: Row, blankLineage: bool) {
    && (|| row.documentId == Some(f.documentId)
        || (f.lineageId.Some? && row.lineageId == f.lineageId && (blankLineage || f.lineageId != Some(""))))
    && !row.running
    && (f.since.None? || f.since.value < row.sq)
    && (f.tool.None? || row.tool == f.tool.value)
    && (f.tag.None? || row.tag == f.tag)
    && (f.tool.Some? || f.skip.None? || !f.skip.value(row.tool))
    && f.matches(row)
  }

  lemma ShownIsAsked(f: Filter, row: Row)
    ensures Shown(f, row) <==> Asked(f, row, false) && row.sq < 0x4000_0000_0000_0000
    ensures Remembered(f, row) <==> Asked(f, row, true)
  {
  }

  /** The two histories hold exactly the rows asked for. */
  lemma {:induction false} RowsAsked(log: seq<Row>, f: Filter, row: Row)
    ensures row in FileRows(log, f) <==> row in log && Asked(f, row, false) && row.sq < 0x4000_0000_0000_0000
    ensures row in MemoryRows(log, f) <==> row in log && Asked(f, row, true)
    decreases |log|
  {
    hide Shown, Remembered, Asked;
    if log != [] {
      var rest, last := log[..|log| - 1], log[|log| - 1];
      RowsAsked(rest, f, row);
      ShownIsAsked(f, last);
      assert log == rest + [last];
    }
  }

  // ── the queries ──

  /** The rows below the cursor, newest first. */
  function Below(log: seq<Row>, f: Filter, cursor: int): seq<Row>
    decreases |log|
  {
    if log == [] then []
    else
      var last := log[|log| - 1];
      (if Selects(f, last) && last.sq < cursor then [last] else []) + Below(log[..|log| - 1], f, cursor)
  }

  lemma {:induction false} BelowHolds(log: seq<Row>, f: Filter, cursor: int, row: Row)
    requires row in Below(log, f, cursor)
    ensures row in log && row.sq < cursor
    decreases |log|
  {
    var rest, last := log[..|log| - 1], log[|log| - 1];
    if !(Selects(f, last) && last.sq < cursor && row == last) {
      BelowHolds(rest, f, cursor, row);
    }
  }

  function Passing(rows: seq<Row>, f: Filter): seq<Row>
    decreases |rows|
  {
    if rows == [] then [] else (if Unskipped(f, rows[0]) then [rows[0]] else []) + Passing(rows[1..], f)
  }

  lemma {:induction false} PassingAppend(a: seq<Row>, b: seq<Row>, f: Filter)
    ensures Passing(a + b, f) == Passing(a, f) + Passing(b, f)
    decreases |a|
  {
    if a == [] {
      assert a + b == b;
    } else {
      assert (a + b)[1..] == a[1..] + b;
      PassingAppend(a[1..], b, f);
    }
  }

  /** The filters over the rows read are the filters over the log. */
  lemma {:induction false} PassingBelow(log: seq<Row>, f: Filter)
    ensures Passing(Below(log, f, FirstCursor()), f) == FileRows(log, f)
    decreases |log|
  {
    if log != [] {
      var rest, last := log[..|log| - 1], log[|log| - 1];
      PassingBelow(rest, f);
      PassingAppend(if Selects(f, last) && last.sq < FirstCursor() then [last] else [], Below(rest, f, FirstCursor()), f);
      assert Below(log, f, FirstCursor()) ==
        (if Selects(f, last) && last.sq < FirstCursor() then [last] else []) + Below(rest, f, FirstCursor());
      assert Passing([last], f) == if Unskipped(f, last) then [last] else [];
    }
  }

  /** The rows after the first `n` are the rows below the `n`th. */
  lemma {:induction false} PageEnds(log: seq<Row>, f: Filter, cursor: int, n: nat)
    requires Sorted(log) && 0 < n <= |Below(log, f, cursor)|
    ensures Below(log, f, cursor)[n..] == Below(log, f, Below(log, f, cursor)[n - 1].sq)
    ensures Below(log, f, cursor)[n - 1] in log && Below(log, f, cursor)[n - 1].sq < cursor
    decreases |log|
  {
    hide Selects;
    var rest, last := log[..|log| - 1], log[|log| - 1];
    var rows, older := Below(log, f, cursor), Below(rest, f, cursor);
    if Selects(f, last) && last.sq < cursor {
      assert rows == [last] + older;
      if n == 1 {
        AllBelow(rest, f, cursor, last.sq);
      } else {
        PageEnds(rest, f, cursor, n - 1);
        assert rows[n - 1] == older[n - 2] && rows[n..] == older[n - 1..];
        NotLast(log, older[n - 2]);
      }
    } else {
      assert rows == older;
      PageEnds(rest, f, cursor, n);
      NotLast(log, older[n - 1]);
    }
  }

  lemma NotLast(log: seq<Row>, row: Row)
    requires Sorted(log) && log != [] && row in log[..|log| - 1]
    ensures row.sq < log[|log| - 1].sq
  {
  }

  /** Lowering the cursor to a bound of the log changes nothing. */
  lemma {:induction false} AllBelow(log: seq<Row>, f: Filter, cursor: int, bound: int)
    requires forall i | 0 <= i < |log| :: log[i].sq < bound
    requires bound <= cursor
    ensures Below(log, f, cursor) == Below(log, f, bound)
    decreases |log|
  {
    if log != [] {
      AllBelow(log[..|log| - 1], f, cursor, bound);
    }
  }

  /** Rows appended later are above every cursor taken from the log. */
  lemma {:induction false} AppendedAbove(log: seq<Row>, more: seq<Row>, f: Filter, cursor: int)
    requires forall i | 0 <= i < |more| :: more[i].sq >= cursor
    ensures Below(log + more, f, cursor) == Below(log, f, cursor)
    decreases |more|
  {
    if more == [] {
      assert log + more == log;
    } else {
      var all := log + more;
      assert all[..|all| - 1] == log + more[..|more| - 1];
      AppendedAbove(log, more[..|more| - 1], f, cursor);
    }
  }

  /** The log as a later query finds it: what it was, and rows since. */
  predicate Grown(log: seq<Row>, later: seq<Row>) {
    Sorted(later) && log <= later
  }

  lemma LaterPage(log: seq<Row>, later: seq<Row>, f: Filter, cursor: int, at: Row)
    requires Grown(log, later) && at in log && at.sq == cursor
    ensures Below(later, f, cursor) == Below(log, f, cursor)
  {
    assert later == log + later[|log|..];
    AppendedAbove(log, later[|log|..], f, cursor);
  }

  /** `_history_rows`: the rows that pass, until there are `limit`. */
  method Gather(rows: seq<Row>, out: seq<Row>, f: Filter, limit: int) returns (all: seq<Row>)
    requires |out| < limit
    ensures all == out + Take(Passing(rows, f), limit - |out|)
  {
    all := out;
    var i := 0;
    while i < |rows|
      invariant 0 <= i <= |rows| && |all| < limit
      invariant out + Passing(rows, f) == all + Passing(rows[i..], f)
    {
      assert rows[i..][1..] == rows[i + 1..];
      if Unskipped(f, rows[i]) {
        all := all + [rows[i]];
        if |all| >= limit {
          assert out + Passing(rows, f) == all + Passing(rows[i + 1..], f);
          TakeOfSum(out, Passing(rows, f), all, Passing(rows[i + 1..], f), limit);
          return;
        }
      }
      i := i + 1;
    }
    assert Passing(rows[i..], f) == [];
    TakeOfSum(out, Passing(rows, f), all, [], limit);
  }

  lemma TakeOfSum<T>(a: seq<T>, b: seq<T>, c: seq<T>, d: seq<T>, limit: int)
    requires |a| < limit && a + b == c + d && |c| <= limit && (d == [] || |c| == limit)
    ensures c == a + Take(b, limit - |a|)
  {
    assert c == (a + b)[..|c|];
    if d == [] {
      assert c == a + b;
    }
  }

  // ── whatever changes between two pages ──

  predicate Descending(rows: seq<Row>) {
    forall i, j | 0 <= i < j < |rows| :: rows[i].sq > rows[j].sq
  }

  lemma {:induction false} BelowExactly(log: seq<Row>, f: Filter, cursor: int, row: Row)
    ensures row in Below(log, f, cursor) <==> row in log && Selects(f, row) && row.sq < cursor
    decreases |log|
  {
    if log != [] {
      var rest, last := log[..|log| - 1], log[|log| - 1];
      BelowExactly(rest, f, cursor, row);
      assert log == rest + [last];
    }
  }

  lemma {:induction false} BelowDescends(log: seq<Row>, f: Filter, cursor: int)
    requires Sorted(log)
    ensures Descending(Below(log, f, cursor))
    decreases |log|
  {
    if log != [] {
      var rest, last := log[..|log| - 1], log[|log| - 1];
      BelowDescends(rest, f, cursor);
      var older := Below(rest, f, cursor);
      forall i | 0 <= i < |older| ensures older[i].sq < last.sq {
        BelowHolds(rest, f, cursor, older[i]);
        NotLast(log, older[i]);
      }
    }
  }

  lemma {:induction false} PassingExactly(rows: seq<Row>, f: Filter, row: Row)
    ensures row in Passing(rows, f) <==> row in rows && Unskipped(f, row)
    decreases |rows|
  {
    if rows != [] {
      PassingExactly(rows[1..], f, row);
      assert rows == [rows[0]] + rows[1..];
    }
  }

  lemma {:induction false} PassingDescends(rows: seq<Row>, f: Filter)
    requires Descending(rows)
    ensures Descending(Passing(rows, f))
    decreases |rows|
  {
    if rows != [] {
      PassingDescends(rows[1..], f);
      var rest := Passing(rows[1..], f);
      forall i | 0 <= i < |rest| ensures rest[i].sq < rows[0].sq {
        PassingExactly(rows[1..], f, rest[i]);
        var k :| 0 <= k < |rows[1..]| && rows[1..][k] == rest[i];
        assert rows[k + 1] == rest[i];
      }
    }
  }

  /** One of the logs read shows the row. */
  ghost predicate ShownOnce(query: nat -> Option<seq<Row>>, f: Filter, row: Row) {
    Shown(f, row) && exists n :: query(n).Some? && row in query(n).value
  }

  /** The row is in every log read, as it is. */
  ghost predicate Lasting(query: nat -> Option<seq<Row>>, row: Row) {
    forall n | query(n).Some? :: row in query(n).value
  }

  /** What is read is in order and was shown, and down to `from` no lasting row is missed. */
  ghost predicate ReadDown(query: nat -> Option<seq<Row>>, f: Filter, out: seq<Row>, from: int) {
    && Descending(out) && (forall i | 0 <= i < |out| :: ShownOnce(query, f, out[i]) && out[i].sq >= from)
    && (forall row | Lasting(query, row) && Shown(f, row) && row.sq >= from :: row in out)
  }

  /** And what the answer is then: the newest of them, or all. */
  ghost predicate Answers(query: nat -> Option<seq<Row>>, f: Filter, out: seq<Row>, limit: int, whole: bool) {
    && Descending(out) && (forall i | 0 <= i < |out| :: ShownOnce(query, f, out[i]))
    && (whole ==> forall row | Lasting(query, row) && Shown(f, row) ::
          row in out || (|out| >= limit && forall i | 0 <= i < |out| :: out[i].sq > row.sq))
  }

  /** The shown rows below the cursor, newest first. */
  ghost predicate NewestBelow(log: seq<Row>, f: Filter, cursor: int, all: seq<Row>) {
    Descending(all) && forall row :: row in all <==> row in log && Shown(f, row) && row.sq < cursor
  }

  /** A page's rows that pass are the newest shown below the cursor. */
  lemma PagePasses(log: seq<Row>, f: Filter, cursor: int, page: nat)
    requires Sorted(log) && cursor <= FirstCursor()
    ensures var all, rows := Passing(Below(log, f, cursor), f), Take(Below(log, f, cursor), page);
      && NewestBelow(log, f, cursor, all) && Passing(rows, f) <= all
      && (|rows| < page ==> Passing(rows, f) == all)
      && (|rows| == page > 0 ==>
            && rows[page - 1].sq < cursor && (forall i | 0 <= i < |Passing(rows, f)| :: Passing(rows, f)[i].sq >= rows[page - 1].sq)
            && forall row | row in all && row.sq >= rows[page - 1].sq :: row in Passing(rows, f))
  {
    var below := Below(log, f, cursor);
    var all, rows := Passing(below, f), Take(below, page);
    BelowDescends(log, f, cursor);
    PassingDescends(below, f);
    assert below == rows + below[|rows|..];
    PassingAppend(rows, below[|rows|..], f);
    hide Passing, Below;
    forall row ensures row in all <==> row in log && Shown(f, row) && row.sq < cursor {
      PassingExactly(below, f, row);
      BelowExactly(log, f, cursor, row);
    }
    if |rows| == page > 0 {
      PageReaches(log, f, cursor, below, page);
    } else if page > 0 {
      assert below[|rows|..] == [];
      NothingPasses(f);
    }
  }

  lemma NothingPasses(f: Filter)
    ensures Passing([], f) == []
  {
  }

  lemma PageReaches(log: seq<Row>, f: Filter, cursor: int, below: seq<Row>, page: nat)
    requires below == Below(log, f, cursor) && Descending(below) && 0 < page <= |below|
    ensures below[page - 1].sq < cursor
    ensures forall i | 0 <= i < |Passing(below[..page], f)| :: Passing(below[..page], f)[i].sq >= below[page - 1].sq
    ensures forall row | row in Passing(below, f) && row.sq >= below[page - 1].sq :: row in Passing(below[..page], f)
  {
    BelowExactly(log, f, cursor, below[page - 1]);
    hide Passing, Below;
    var rows := below[..page];
    forall i | 0 <= i < |Passing(rows, f)| ensures Passing(rows, f)[i].sq >= below[page - 1].sq {
      PassingExactly(rows, f, Passing(rows, f)[i]);
      var k :| 0 <= k < |rows| && rows[k] == Passing(rows, f)[i];
      assert below[k] == rows[k];
    }
    forall row | row in Passing(below, f) && row.sq >= below[page - 1].sq ensures row in Passing(rows, f) {
      PassingExactly(below, f, row);
      var k :| 0 <= k < |below| && below[k] == row;
      assert k < page && rows[k] == row;
      PassingExactly(rows, f, row);
    }
  }

  /** What a prefix of a descending list leaves out is below it. */
  lemma PrefixDescends(some: seq<Row>, all: seq<Row>)
    requires some <= all && Descending(all)
    ensures Descending(some) && forall row, i | row in all && row !in some && 0 <= i < |some| :: some[i].sq > row.sq
  {
    forall row, i | row in all && row !in some && 0 <= i < |some| ensures some[i].sq > row.sq {
      var k :| 0 <= k < |all| && all[k] == row;
      assert k >= |some|;
    }
  }

  lemma JoinedDescends(out: seq<Row>, adds: seq<Row>, cursor: int)
    requires Descending(out) && Descending(adds)
    requires (forall i | 0 <= i < |out| :: out[i].sq >= cursor) && forall i | 0 <= i < |adds| :: adds[i].sq < cursor
    ensures Descending(out + adds)
  {
  }

  lemma AddsShown(query: nat -> Option<seq<Row>>, n: nat, f: Filter, cursor: int, all: seq<Row>, adds: seq<Row>)
    requires query(n).Some? && NewestBelow(query(n).value, f, cursor, all) && adds <= all
    ensures Descending(adds) && forall i | 0 <= i < |adds| :: ShownOnce(query, f, adds[i]) && adds[i].sq < cursor
  {
    hide Shown;
    PrefixDescends(adds, all);
    forall i | 0 <= i < |adds| ensures ShownOnce(query, f, adds[i]) && adds[i].sq < cursor {
      assert adds[i] == all[i] && all[i] in all;
    }
  }

  /** With all of a page's rows that pass: read down to its last row, `low`. */
  lemma ReadsDown(query: nat -> Option<seq<Row>>, n: nat, f: Filter, cursor: int, out: seq<Row>, all: seq<Row>, adds: seq<Row>, low: int)
    requires query(n).Some? && NewestBelow(query(n).value, f, cursor, all) && adds <= all
    requires ReadDown(query, f, out, cursor) && low < cursor
    requires (forall i | 0 <= i < |adds| :: adds[i].sq >= low) && forall row | row in all && row.sq >= low :: row in adds
    ensures ReadDown(query, f, out + adds, low)
  {
    hide Shown, ShownOnce;
    AddsShown(query, n, f, cursor, all, adds);
    JoinedDescends(out, adds, cursor);
    hide Descending;
    forall row | Lasting(query, row) && Shown(f, row) && row.sq >= low ensures row in out + adds {
      assert row in query(n).value;
    }
  }

  /** With some of them: an answer, if they are all there are or as many as asked for. */
  lemma Answered(query: nat -> Option<seq<Row>>, n: nat, f: Filter, cursor: int, out: seq<Row>, all: seq<Row>, adds: seq<Row>, limit: int)
    requires query(n).Some? && NewestBelow(query(n).value, f, cursor, all) && adds <= all && ReadDown(query, f, out, cursor)
    ensures Answers(query, f, out + adds, limit, |out + adds| == limit || adds == all)
  {
    hide Shown, ShownOnce;
    AddsShown(query, n, f, cursor, all, adds);
    JoinedDescends(out, adds, cursor);
    PrefixDescends(adds, all);
    hide Descending;
    var next := out + adds;
    forall row | Lasting(query, row) && Shown(f, row) && row !in next
      ensures row in all && forall i | 0 <= i < |next| :: next[i].sq > row.sq
    {
      assert row in query(n).value && row.sq < cursor;
    }
  }

  /** One page more: still read down, to its last row; or the answer. */
  lemma ReadOn(query: nat -> Option<seq<Row>>, n: nat, f: Filter, cursor: int, page: nat, out: seq<Row>, limit: int)
    requires query(n).Some? && Sorted(query(n).value) && cursor <= FirstCursor() && page > 0 && |out| < limit
    requires ReadDown(query, f, out, cursor)
    ensures var rows := Take(Below(query(n).value, f, cursor), page);
      var next := out + Take(Passing(rows, f), limit - |out|);
      && |next| <= limit && (|rows| == page ==> rows[page - 1].sq < cursor)
      && (|next| < limit && |rows| == page ==> ReadDown(query, f, next, rows[page - 1].sq))
      && Answers(query, f, next, limit, |next| == limit || |rows| < page)
  {
    var log := query(n).value;
    var rows := Take(Below(log, f, cursor), page);
    var all := Passing(Below(log, f, cursor), f);
    var adds := Take(Passing(rows, f), limit - |out|);
    PagePasses(log, f, cursor, page);
    hide Passing, Below, NewestBelow, ReadDown, Answers;
    assert adds <= Passing(rows, f) <= all;
    Answered(query, n, f, cursor, out, all, adds, limit);
    if |out + adds| < limit && |rows| == page {
      assert adds == Passing(rows, f);
      ReadsDown(query, n, f, cursor, out, all, adds, rows[page - 1].sq);
    }
  }

  /** The same, of the rows asked for. */
  ghost predicate AnswersAsked(query: nat -> Option<seq<Row>>, f: Filter, out: seq<Row>, limit: int, whole: bool) {
    && (forall i | 0 <= i < |out| :: Asked(f, out[i], false))
    && (whole ==> forall row | Lasting(query, row) && Asked(f, row, false) && row.sq < 0x4000_0000_0000_0000 ::
          row in out || (|out| >= limit && forall i | 0 <= i < |out| :: out[i].sq > row.sq))
  }

  lemma AnswersWhatIsAsked(query: nat -> Option<seq<Row>>, f: Filter, out: seq<Row>, limit: int, whole: bool)
    requires Answers(query, f, out, limit, whole)
    ensures AnswersAsked(query, f, out, limit, whole)
  {
    hide Shown, Asked, Lasting;
    forall row ensures Shown(f, row) <==> Asked(f, row, false) && row.sq < 0x4000_0000_0000_0000 {
      ShownIsAsked(f, row);
    }
    forall i | 0 <= i < |out| ensures Asked(f, out[i], false) {
      assert ShownOnce(query, f, out[i]);
    }
  }

  lemma NothingRead(query: nat -> Option<seq<Row>>, f: Filter)
    ensures ReadDown(query, f, [], FirstCursor())
  {
  }

  lemma NothingAnswered(query: nat -> Option<seq<Row>>, f: Filter, limit: int)
    ensures Answers(query, f, [], limit, limit <= 0)
  {
  }

  /** Rows are only added between two pages. */
  ghost predicate OnlyGrows(query: nat -> Option<seq<Row>>) {
    forall n | query(0).Some? && query(n).Some? :: Grown(query(0).value, query(n).value)
  }

  /** The durable journal's history. `query(n)` is the log the `n`th query reads, or None once the file is
      unusable; `memory` is this process's own log.

      Rows may be added, finished, swept and retired between two queries: with a file that answers, the
      result is in order, each row as one of the queries showed it, and no shown row that stayed as it was
      is missed but for the limit. If rows are only added it is filter-then-take over the log as the first
      query found it. A file failing later cuts the result short; one failing at once leaves it to memory. */
  method DurableHistory(query: nat -> Option<seq<Row>>, memory: seq<Row>, f: Filter, limit: int)
    returns (out: seq<Row>)
    requires forall n | query(n).Some? :: Sorted(query(n).value)
    ensures limit <= 0 ==> out == []
    ensures query(0).Some? ==> |out| <= (if limit < 0 then 0 else limit)
    ensures query(0).Some? ==> Answers(query, f, out, limit, forall n :: query(n).Some?)
    ensures query(0).Some? ==> AnswersAsked(query, f, out, limit, forall n :: query(n).Some?)
    ensures query(0).Some? && OnlyGrows(query) ==> out <= Take(FileRows(query(0).value, f), limit)
    ensures (forall n :: query(n).Some?) && OnlyGrows(query) ==> out == Take(FileRows(query(0).value, f), limit)
    ensures query(0).None? && limit > 0 ==> out == Take(MemoryRows(memory, f), limit)
  {
    hide Passing, Below, Shown, FileRows, MemoryRows, Descending, ShownOnce, Lasting, AnswersAsked, Asked;
    var page := if 50 < 5 * limit then 5 * limit else 50;
    var cursor, first, n := FirstCursor(), true, 0;
    out := [];
    ghost var log := if query(0).Some? then query(0).value else [];
    ghost var last: Option<Row> := None;
    ghost var grows := OnlyGrows(query);
    PassingBelow(log, f);
    NothingRead(query, f);
    NothingAnswered(query, f, limit);
    while |out| < limit
      invariant first <==> n == 0
      invariant first ==> out == [] && cursor == FirstCursor()
      invariant !first ==> query(0).Some? && last.Some? && last.value.sq == cursor && (grows ==> last.value in log)
      invariant cursor <= FirstCursor() && |out| <= (if limit < 0 then 0 else limit)
      invariant |out| < limit ==> ReadDown(query, f, out, cursor)
      invariant query(0).Some? ==> Answers(query, f, out, limit, |out| >= limit)
      invariant grows && query(0).Some? && |out| < limit ==> FileRows(log, f) == out + Passing(Below(log, f, cursor), f)
      invariant grows && query(0).Some? && |out| >= limit ==> out == Take(FileRows(log, f), limit)
      decreases cursor
    {
      var answer := query(n);
      if answer.None? {
        if !first {
          break;
        }
        out := MemoryHistory(memory, f, limit);
        return;
      }
      var rows := Take(Below(answer.value, f, cursor), page);
      if grows {
        if !first {
          LaterPage(log, answer.value, f, cursor, last.value);
        }
        PageStep(log, f, cursor, page, out, limit);
      }
      ReadOn(query, n, f, cursor, page, out, limit);
      out := Gather(rows, out, f, limit);
      if |rows| < page {
        break;
      }
      last := Some(rows[|rows| - 1]);
      cursor := rows[|rows| - 1].sq;
      first, n := false, n + 1;
    }
    if query(0).Some? {
      AnswersWhatIsAsked(query, f, out, limit, forall n :: query(n).Some?);
    }
  }

  /** One page: done with what it adds, or the rest is below its last row. */
  lemma PageStep(log: seq<Row>, f: Filter, cursor: int, page: nat, before: seq<Row>, limit: int)
    requires Sorted(log) && page > 0 && |before| < limit
    requires FileRows(log, f) == before + Passing(Below(log, f, cursor), f)
    ensures var rows := Take(Below(log, f, cursor), page);
      var out := before + Take(Passing(rows, f), limit - |before|);
      && |out| <= limit && (|out| == limit || |rows| < page ==> out == Take(FileRows(log, f), limit))
      && out <= Take(FileRows(log, f), limit)
      && (|rows| == page ==>
            var last := rows[page - 1];
            && last in log && last.sq < cursor && |Below(log, f, last.sq)| < |Below(log, f, cursor)|
            && (|out| < limit ==> FileRows(log, f) == out + Passing(Below(log, f, last.sq), f)))
  {
    var all := Below(log, f, cursor);
    var rows := Take(all, page);
    assert all == rows + all[|rows|..];
    PassingAppend(rows, all[|rows|..], f);
    TakeMore(FileRows(log, f), before, Passing(rows, f), Passing(all[|rows|..], f), limit);
    if |rows| == page {
      PageEnds(log, f, cursor, page);
    } else {
      assert all[|rows|..] == [];
    }
  }

  lemma TakeMore<T>(whole: seq<T>, before: seq<T>, next: seq<T>, rest: seq<T>, limit: int)
    requires |before| < limit && whole == before + (next + rest)
    ensures var out := before + Take(next, limit - |before|);
      && |out| <= limit
      && (|out| == limit ==> out == Take(whole, limit))
      && (|out| < limit ==> whole == out + rest)
      && (rest == [] ==> out == Take(whole, limit))
      && out <= Take(whole, limit)
  {
    var out := before + Take(next, limit - |before|);
    if |out| == limit {
      assert out == whole[..limit];
    } else {
      assert Take(next, limit - |before|) == next;
      assert whole == out + rest;
    }
  }

  /** The in-memory journal's history: the records newest first until `limit` matched, a first match
      always among them. */
  method MemoryHistory(log: seq<Row>, f: Filter, limit: int) returns (rows: seq<Row>)
    ensures rows == Take(MemoryRows(log, f), if limit < 1 then 1 else limit)
    ensures forall row | row in rows :: row in log && Asked(f, row, true)
  {
    hide Asked, Remembered;
    TakenAsked(log, f, if limit < 1 then 1 else limit);
    rows := [];
    var i := |log|;
    assert log[..i] == log;
    while i > 0
      invariant 0 <= i <= |log|
      invariant |rows| < limit || rows == []
      invariant MemoryRows(log, f) == rows + MemoryRows(log[..i], f)
    {
      MemoryStep(log, f, i);
      i := i - 1;
      if Remembered(f, log[i]) {
        rows := rows + [log[i]];
        assert MemoryRows(log, f) == rows + MemoryRows(log[..i], f);
        if |rows| >= limit {
          assert rows == MemoryRows(log, f)[..|rows|];
          return;
        }
      }
    }
    assert MemoryRows(log[..0], f) == [];
  }

  lemma TakenAsked(log: seq<Row>, f: Filter, n: int)
    ensures forall row | row in Take(MemoryRows(log, f), n) :: row in log && Asked(f, row, true)
  {
    hide Asked, MemoryRows;
    forall row | row in Take(MemoryRows(log, f), n) ensures row in log && Asked(f, row, true) {
      RowsAsked(log, f, row);
    }
  }

  lemma MemoryStep(log: seq<Row>, f: Filter, i: nat)
    requires 0 < i <= |log|
    ensures MemoryRows(log[..i], f) == (if Remembered(f, log[i - 1]) then [log[i - 1]] else []) + MemoryRows(log[..i - 1], f)
  {
    assert log[..i][..i - 1] == log[..i - 1];
  }

  // ── the two agree ──

  lemma {:induction false} SameRows(log: seq<Row>, f: Filter)
    requires f.lineageId != Some("")
    requires Numbered(log)
    ensures FileRows(log, f) == MemoryRows(log, f)
    decreases |log|
  {
    if log != [] {
      SameRows(log[..|log| - 1], f);
    }
  }

  /** One log in the file and in memory gives one history, whatever the log, exactly when the limit is
      at least one and the lineage asked for is not empty. A smaller limit gives none from the file and
      the newest match from memory; an empty lineage is a lineage in memory only. `shown` is a row the
      filter shows, `odd` one it shows by an empty lineage. */
  lemma HistoriesAgree(f: Filter, limit: int, shown: Row, odd: Row)
    requires Shown(f, shown)
    requires f.lineageId == Some("") ==> Remembered(f, odd) && odd.documentId != Some(f.documentId) && odd.sq < FirstCursor()
    ensures limit >= 1 && f.lineageId != Some("") <==>
      forall log | Sorted(log) && Numbered(log) ::
        Take(FileRows(log, f), limit) == Take(MemoryRows(log, f), if limit < 1 then 1 else limit)
  {
    if limit < 1 {
      SmallLimitDiffers(f, limit, shown);
    } else if f.lineageId == Some("") {
      EmptyLineageDiffers(f, odd);
      assert Sorted([odd]) && Numbered([odd]) && Take(FileRows([odd], f), limit) != Take(MemoryRows([odd], f), limit);
    } else {
      forall log | Sorted(log) && Numbered(log)
        ensures FileRows(log, f) == MemoryRows(log, f)
      {
        SameRows(log, f);
      }
    }
  }

  lemma SmallLimitDiffers(f: Filter, limit: int, shown: Row)
    requires limit < 1 && Shown(f, shown)
    ensures Sorted([shown]) && Numbered([shown])
    ensures Take(FileRows([shown], f), limit) == [] && Take(MemoryRows([shown], f), 1) == [shown]
  {
    assert [shown][..0] == [];
    assert MemoryRows([shown], f) == [shown];
  }

  /** A record of an empty lineage is this document's in memory and no row of the file's history. */
  lemma EmptyLineageDiffers(f: Filter, row: Row)
    requires f.lineageId == Some("") && Remembered(f, row) && row.documentId != Some(f.documentId)
    ensures FileRows([row], f) == [] && MemoryRows([row], f) == [row]
  {
    assert [row][..0] == [];
  }
}
