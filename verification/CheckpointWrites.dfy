/** The writes of the checkpoint store (backends/checkpoints.py): every disk a kill can leave between two
    of them, and runs of processes that add, are killed and start again. */
module CheckpointWrites {

  import opened Wrappers
  import opened Checkpoints

  /** One `add`: its settings, the order its lineages come in, and its arguments. */
  datatype Call = Call(settings: Settings, order: seq<string>, lineage: string, rev: int, base: Option<int>, content: Option<Bytes>)

  ghost predicate Possible(d: Disk, call: Call) {
    Ordered(d, call.order, call.lineage) && (call.content.Some? ==> call.content.value.packed > 0)
  }

  ghost function AfterAdd(d: Disk, call: Call): Disk {
    Added(d, call.settings, call.order, call.lineage, call.rev, call.base, call.content)
  }

  function AfterIndex(d: Disk, call: Call): Disk {
    Indexed(d, call.settings, call.lineage, call.rev, call.base, call.content)
  }

  function RowOf(d: Disk, call: Call): Row {
    NewRow(d, call.lineage, call.rev, call.base, call.content)
  }

  // ── the disks between the writes ──

  function Unlinked(d: Disk, lineage: string, k: nat): Disk {
    d.(files := d.files - {Key(lineage, k)})
  }

  /** From row `k` on, the files of the rows that `kept` evicts go, one after another. */
  function Unlinks(d: Disk, lineage: string, rows: seq<Row>, kept: seq<Row>, k: nat): seq<Disk>
    requires |kept| == |rows|
    decreases |rows| - k
  {
    if k >= |rows| then []
    else if kept[k] != rows[k] && !rows[k].blank then
      [Unlinked(d, lineage, k)] + Unlinks(Unlinked(d, lineage, k), lineage, rows, kept, k + 1)
    else Unlinks(d, lineage, rows, kept, k + 1)
  }

  function CountTrimmed(rows: seq<Row>, settings: Settings, keepSeq: nat): (kept: seq<Row>)
    ensures |kept| == |rows|
  {
    ByCount(rows, 0, Count(rows, 0) - MaxInt(1, settings.keep), keepSeq)
  }

  /** `_evict_lineage`: by count, then by size. */
  function LineageWrites(d: Disk, lineage: string, rows: seq<Row>, settings: Settings, keepSeq: nat): seq<Disk> {
    var byCount := CountTrimmed(rows, settings, keepSeq);
    Unlinks(d, lineage, rows, byCount, 0)
      + Unlinks(Disk(d.indexes, Purged(d.files, lineage, byCount)), lineage, byCount, LineageTrimmed(rows, settings, keepSeq), 0)
  }

  /** One lineage's share of `_evict_budget`: its files, then its index if a row was evicted. */
  function ShareWrites(d: Disk, lineage: string, kept: seq<Row>): seq<Disk>
    requires |kept| == |IndexOf(d, lineage).rows|
  {
    Unlinks(d, lineage, IndexOf(d, lineage).rows, kept, 0)
      + if kept == IndexOf(d, lineage).rows then [] else [WithRows(d, lineage, kept)]
  }

  /** `_evict_budget` from lineage `k` of `order`. */
  function BudgetWrites(d: Disk, order: seq<string>, k: nat, total: int, budget: int, current: string, keepSeq: nat): seq<Disk>
    decreases |order| - k
  {
    if k >= |order| || total <= budget then []
    else
      var trim := BySize(IndexOf(d, order[k]).rows, 0, total, budget, Kept(order[k], current, keepSeq));
      ShareWrites(d, order[k], trim.rows)
        + BudgetWrites(WithRows(d, order[k], trim.rows), order, k + 1, trim.size, budget, current, keepSeq)
  }

  function Written(d: Disk, call: Call): Disk {
    if call.content.Some? then d.(files := d.files[Key(call.lineage, |IndexOf(d, call.lineage).rows|) := call.content.value]) else d
  }

  /** `add`: its file, the evictions of its lineage, the index, the budget. */
  ghost function AddWrites(d: Disk, call: Call): seq<Disk> {
    var n := |IndexOf(d, call.lineage).rows|;
    (if call.content.Some? then [Written(d, call)] else [])
      + LineageWrites(Written(d, call), call.lineage, IndexOf(d, call.lineage).rows + [RowOf(d, call)], call.settings, n)
      + [AfterIndex(d, call)]
      + BudgetWrites(AfterIndex(d, call), call.order, 0, Total(AfterIndex(d, call).files), call.settings.budget, call.lineage, n)
  }

  function Last(d: Disk, writes: seq<Disk>): Disk {
    if writes == [] then d else writes[|writes| - 1]
  }

  lemma UnlinksStep(d: Disk, lineage: string, rows: seq<Row>, kept: seq<Row>, k: nat)
    requires |kept| == |rows| && k < |rows|
    ensures Unlinks(d, lineage, rows, kept, k) ==
      if kept[k] != rows[k] && !rows[k].blank then [Unlinked(d, lineage, k)] + Unlinks(Unlinked(d, lineage, k), lineage, rows, kept, k + 1)
      else Unlinks(d, lineage, rows, kept, k + 1)
  {
  }

  lemma {:induction false} RestStays(d: Disk, lineage: string, rows: seq<Row>, kept: seq<Row>, k: nat)
    requires |kept| == |rows| && k <= |rows| && kept[k..] == rows[k..]
    ensures Unlinks(d, lineage, rows, kept, k) == []
    decreases |rows| - k
  {
    if k < |rows| {
      assert kept[k] == kept[k..][0] == rows[k..][0] == rows[k];
      assert kept[k + 1..] == kept[k..][1..] && rows[k + 1..] == rows[k..][1..];
      RestStays(d, lineage, rows, kept, k + 1);
    }
  }

  // ── each of them is sound and keeps the rows before it ──

  ghost predicate Safe(trace: seq<Disk>) {
    && (forall k | 0 <= k < |trace| :: Sound(trace[k]))
    && (forall k | 0 <= k < |trace| - 1 :: Keeps(trace[k], trace[k + 1]))
  }

  lemma SafeJoined(d: Disk, a: seq<Disk>, b: seq<Disk>)
    requires Safe([d] + a) && Safe([Last(d, a)] + b)
    ensures Safe([d] + (a + b)) && Last(d, a + b) == Last(Last(d, a), b)
  {
    hide Sound, Keeps;
    var all, tail := [d] + (a + b), [Last(d, a)] + b;
    assert ([d] + a)[|a|] == Last(d, a) == tail[0];
    forall k | 0 <= k < |all| ensures all[k] == if k <= |a| then ([d] + a)[k] else tail[k - |a|] {
    }
    forall k | 0 <= k < |all| - 1 ensures Keeps(all[k], all[k + 1]) {
      if k >= |a| {
        assert Keeps(tail[k - |a|], tail[k - |a| + 1]);
      } else {
        assert Keeps(([d] + a)[k], ([d] + a)[k + 1]);
      }
    }
  }

  lemma SafeOne(d: Disk, next: Disk)
    requires Sound(d) && Sound(next) && Keeps(d, next)
    ensures Safe([d] + [next]) && Last(d, [next]) == next
  {
  }

  lemma SafeNone(d: Disk)
    requires Sound(d)
    ensures Safe([d] + []) && Last(d, []) == d
  {
  }

  lemma WriteIsSound(d: Disk, key: Key, bytes: Bytes)
    requires Sound(d) && key.sq == |IndexOf(d, key.lineage).rows|
    ensures Sound(d.(files := d.files[key := bytes])) && Keeps(d, d.(files := d.files[key := bytes]))
  {
    var later := d.(files := d.files[key := bytes]);
    forall other | other in later.files ensures FileOk(later, other) {
      assert other != key ==> FileOk(d, other);
    }
    SameIndexes(d, later);
  }

  lemma SameIndexes(d: Disk, later: Disk)
    requires later.indexes == d.indexes
    ensures Keeps(d, later)
  {
  }

  lemma UnlinkIsSound(d: Disk, key: Key)
    requires Sound(d)
    ensures Sound(d.(files := d.files - {key})) && Keeps(d, d.(files := d.files - {key}))
  {
    var later := d.(files := d.files - {key});
    forall other | other in later.files ensures FileOk(later, other) {
      assert FileOk(d, other);
    }
    SameIndexes(d, later);
  }

  /** The rows as they stand when those before `k` have been offered. */
  function Mixed(rows: seq<Row>, kept: seq<Row>, k: nat): seq<Row>
    requires |kept| == |rows| && k <= |rows|
  {
    kept[..k] + rows[k..]
  }

  lemma MixedStep(start: map<Key, Bytes>, lineage: string, rows: seq<Row>, kept: seq<Row>, k: nat)
    requires |kept| == |rows| && k < |rows| && Continues(rows, kept)
    ensures kept[k] == rows[k] ==> Mixed(rows, kept, k + 1) == Mixed(rows, kept, k)
    ensures kept[k] != rows[k] && rows[k].blank ==>
      Purged(start, lineage, Mixed(rows, kept, k + 1)) == Purged(start, lineage, Mixed(rows, kept, k))
    ensures kept[k] != rows[k] && !rows[k].blank ==>
      Purged(start, lineage, Mixed(rows, kept, k + 1)) == Purged(start, lineage, Mixed(rows, kept, k)) - {Key(lineage, k)}
  {
    var mixed := Mixed(rows, kept, k);
    assert kept[k].(evicted := rows[k].evicted) == rows[k];
    if kept[k] == rows[k] {
      assert Mixed(rows, kept, k + 1) == mixed;
    } else {
      assert Mixed(rows, kept, k + 1) == mixed[k := Evicted(rows[k])];
      assert mixed[k] == rows[k];
      if !rows[k].blank {
        PurgedOne(start, lineage, mixed, k);
      }
    }
  }

  lemma {:induction false} UnlinksSafe(d: Disk, start: map<Key, Bytes>, lineage: string, rows: seq<Row>, kept: seq<Row>, k: nat)
    requires Sound(d) && |kept| == |rows| && k <= |rows| && Continues(rows, kept)
    requires d.files == Purged(start, lineage, Mixed(rows, kept, k))
    ensures var writes := Unlinks(d, lineage, rows, kept, k);
      Safe([d] + writes) && Last(d, writes) == Disk(d.indexes, Purged(start, lineage, kept))
    decreases |rows| - k
  {
    hide Sound, Purged, Mixed, Continues, Safe;
    if k == |rows| {
      SafeNone(d);
      assert Mixed(rows, kept, k) == kept by {
        AllMixed(rows, kept);
      }
    } else {
      MixedStep(start, lineage, rows, kept, k);
      if kept[k] != rows[k] && !rows[k].blank {
        var next := Unlinked(d, lineage, k);
        UnlinkIsSound(d, Key(lineage, k));
        SafeOne(d, next);
        UnlinksSafe(next, start, lineage, rows, kept, k + 1);
        SafeJoined(d, [next], Unlinks(next, lineage, rows, kept, k + 1));
      } else {
        UnlinksSafe(d, start, lineage, rows, kept, k + 1);
      }
    }
  }

  lemma AllMixed(rows: seq<Row>, kept: seq<Row>)
    requires |kept| == |rows|
    ensures Mixed(rows, kept, |rows|) == kept && Mixed(rows, kept, 0) == rows
  {
  }

  lemma PassSafe(d: Disk, lineage: string, rows: seq<Row>, kept: seq<Row>)
    requires Sound(d) && |kept| == |rows| && Continues(rows, kept) && Purged(d.files, lineage, rows) == d.files
    ensures var writes := Unlinks(d, lineage, rows, kept, 0);
      Safe([d] + writes) && Last(d, writes) == Disk(d.indexes, Purged(d.files, lineage, kept))
  {
    AllMixed(rows, kept);
    UnlinksSafe(d, d.files, lineage, rows, kept, 0);
  }

  lemma LastIsSound(d: Disk, writes: seq<Disk>)
    requires Safe([d] + writes)
    ensures Sound(Last(d, writes))
  {
    assert ([d] + writes)[|writes|] == Last(d, writes);
  }

  lemma PurgedTwice(files: map<Key, Bytes>, lineage: string, rows: seq<Row>, kept: seq<Row>)
    requires |kept| == |rows| && Continues(rows, kept)
    ensures Purged(Purged(files, lineage, rows), lineage, kept) == Purged(files, lineage, kept)
    ensures Purged(Purged(files, lineage, rows), lineage, rows) == Purged(files, lineage, rows)
  {
    forall i | 0 <= i < |rows| ensures rows[i].evicted && !rows[i].blank ==> kept[i].evicted && !kept[i].blank {
      assert kept[i].(evicted := rows[i].evicted) == rows[i];
    }
  }

  lemma TrimmedContinues(rows: seq<Row>, settings: Settings, keepSeq: nat)
    requires Sequenced(rows) && keepSeq == |rows| - 1
    ensures var byCount := CountTrimmed(rows, settings, keepSeq);
      Continues(rows, byCount) && Continues(byCount, LineageTrimmed(rows, settings, keepSeq))
  {
    SelfOldest(rows, Some(keepSeq));
    ByCountKeeps(rows, rows, 0, Count(rows, 0) - MaxInt(1, settings.keep), MaxInt(1, settings.keep), keepSeq);
    var byCount := CountTrimmed(rows, settings, keepSeq);
    SelfOldest(byCount, Some(keepSeq));
    BySizeKeeps(byCount, byCount, 0, SizeOf(byCount, 0), settings.maxDoc, Some(keepSeq));
  }

  lemma LineageSafe(d: Disk, lineage: string, rows: seq<Row>, settings: Settings, keepSeq: nat)
    requires Sound(d) && Sequenced(rows) && keepSeq == |rows| - 1 && Purged(d.files, lineage, rows) == d.files
    ensures var writes := LineageWrites(d, lineage, rows, settings, keepSeq);
      Safe([d] + writes) && Last(d, writes) == Disk(d.indexes, Purged(d.files, lineage, LineageTrimmed(rows, settings, keepSeq)))
  {
    hide Sound, Purged, Continues, Safe, CountTrimmed, LineageTrimmed;
    var byCount, kept := CountTrimmed(rows, settings, keepSeq), LineageTrimmed(rows, settings, keepSeq);
    TrimmedContinues(rows, settings, keepSeq);
    PassSafe(d, lineage, rows, byCount);
    var counted := Disk(d.indexes, Purged(d.files, lineage, byCount));
    LastIsSound(d, Unlinks(d, lineage, rows, byCount, 0));
    PurgedTwice(d.files, lineage, byCount, kept);
    PassSafe(counted, lineage, byCount, kept);
    SafeJoined(d, Unlinks(d, lineage, rows, byCount, 0), Unlinks(counted, lineage, byCount, kept, 0));
  }

  /** The lineage's new rows over its purged files is that lineage rewritten. */
  lemma RewrittenKeeps(d: Disk, purged: Disk, lineage: string, rows: seq<Row>)
    requires Sound(d) && Continues(IndexOf(d, lineage).rows, rows) && |rows| == |IndexOf(d, lineage).rows| && rows != IndexOf(d, lineage).rows
    requires purged == Disk(d.indexes, Purged(d.files, lineage, rows))
    ensures Disk(purged.indexes[lineage := Index(|rows|, rows)], purged.files) == WithRows(d, lineage, rows)
    ensures Keeps(purged, WithRows(d, lineage, rows))
  {
    WithRowsSound(d, lineage, rows);
    assert forall other :: IndexOf(purged, other) == IndexOf(d, other);
  }

  lemma ShareSafe(d: Disk, lineage: string, kept: seq<Row>)
    requires Sound(d) && |kept| == |IndexOf(d, lineage).rows| && Continues(IndexOf(d, lineage).rows, kept)
    ensures var writes := ShareWrites(d, lineage, kept); Safe([d] + writes) && Last(d, writes) == WithRows(d, lineage, kept)
  {
    hide Sound, Safe, Continues;
    var rows := IndexOf(d, lineage).rows;
    HoldsRows(d, lineage);
    PassSafe(d, lineage, rows, kept);
    var unlinks := Unlinks(d, lineage, rows, kept, 0);
    if kept == rows {
      assert ShareWrites(d, lineage, kept) == unlinks;
    } else {
      var purged := Disk(d.indexes, Purged(d.files, lineage, kept));
      LastIsSound(d, unlinks);
      WithRowsSound(d, lineage, kept);
      RewrittenKeeps(d, purged, lineage, kept);
      SafeOne(purged, WithRows(d, lineage, kept));
      SafeJoined(d, unlinks, [WithRows(d, lineage, kept)]);
    }
  }

  lemma {:induction false} BudgetSafe(d: Disk, order: seq<string>, k: nat, total: int, budget: int, current: string, keepSeq: nat)
    requires Sound(d) && DistinctNames(order) && keepSeq == |IndexOf(d, current).rows| - 1
    ensures var writes := BudgetWrites(d, order, k, total, budget, current, keepSeq);
      Safe([d] + writes) && Last(d, writes) == Budgeted(d, order, k, total, budget, current, keepSeq)
    decreases |order| - k
  {
    hide Sound, Safe, OldestFirst, Continues;
    if k >= |order| || total <= budget {
      SafeNone(d);
    } else {
      var rows := IndexOf(d, order[k]).rows;
      var spared := Kept(order[k], current, keepSeq);
      var trim := BySize(rows, 0, total, budget, spared);
      var later := WithRows(d, order[k], trim.rows);
      HoldsRows(d, order[k]);
      SelfOldest(rows, spared);
      BySizeKeeps(rows, rows, 0, total, budget, spared);
      WithRowsSound(d, order[k], trim.rows);
      ShareSafe(d, order[k], trim.rows);
      BudgetSafe(later, order, k + 1, trim.size, budget, current, keepSeq);
      SafeJoined(d, ShareWrites(d, order[k], trim.rows), BudgetWrites(later, order, k + 1, trim.size, budget, current, keepSeq));
    }
  }

  lemma AppendedFiles(d: Disk, written: Disk, lineage: string, row: Row)
    requires Sound(d) && row.sq == |IndexOf(d, lineage).rows| && Live(row)
    requires written.indexes == d.indexes && forall key | key in written.files && key != Key(lineage, row.sq) :: key in d.files && written.files[key] == d.files[key]
    ensures Sequenced(IndexOf(d, lineage).rows + [row]) && Purged(written.files, lineage, IndexOf(d, lineage).rows + [row]) == written.files
  {
    var rows := IndexOf(d, lineage).rows;
    HoldsRows(d, lineage);
    forall key | key in written.files && key.lineage == lineage && key.sq < |rows| ensures !(rows[key.sq].evicted && !rows[key.sq].blank) {
      assert FileOk(d, key);
    }
  }

  lemma RowsKept(d: Disk, now: Disk, later: Disk, lineage: string)
    requires Keeps(d, later) && now.indexes == d.indexes
    ensures Keeps(now, later)
  {
    forall other ensures Continues(IndexOf(now, other).rows, IndexOf(later, other).rows) {
      assert Continues(IndexOf(d, other).rows, IndexOf(later, other).rows);
    }
  }

  lemma WrittenSafe(d: Disk, call: Call)
    requires Sound(d) && (call.content.Some? ==> call.content.value.packed > 0)
    ensures var writes := if call.content.Some? then [Written(d, call)] else [];
      Safe([d] + writes) && Last(d, writes) == Written(d, call) && Sound(Written(d, call))
    ensures var rows := IndexOf(d, call.lineage).rows + [RowOf(d, call)];
      Sequenced(rows) && Purged(Written(d, call).files, call.lineage, rows) == Written(d, call).files
  {
    if call.content.Some? {
      WriteIsSound(d, Key(call.lineage, |IndexOf(d, call.lineage).rows|), call.content.value);
      SafeOne(d, Written(d, call));
    } else {
      SafeNone(d);
    }
    AppendedFiles(d, Written(d, call), call.lineage, RowOf(d, call));
  }

  /** Every disk a kill can leave in the middle of an `add` is sound, and keeps the rows there were. */
  lemma AddSafe(d: Disk, call: Call)
    requires Sound(d) && Possible(d, call)
    ensures Safe([d] + AddWrites(d, call)) && Last(d, AddWrites(d, call)) == AfterAdd(d, call)
  {
    hide Sound, Safe, Purged, Budgeted, BudgetWrites, LineageWrites, LineageTrimmed, OldestFirst, Total, Keeps;
    var n, indexed := |IndexOf(d, call.lineage).rows|, AfterIndex(d, call);
    var rows := IndexOf(d, call.lineage).rows + [RowOf(d, call)];
    var first := if call.content.Some? then [Written(d, call)] else [];
    WrittenSafe(d, call);
    var passes := LineageWrites(Written(d, call), call.lineage, rows, call.settings, n);
    LineageSafe(Written(d, call), call.lineage, rows, call.settings, n);
    SafeJoined(d, first, passes);
    LastIsSound(d, first + passes);
    IndexedSound(d, call.settings, call.lineage, call.rev, call.base, call.content);
    RowsKept(d, Last(d, first + passes), indexed, call.lineage);
    SafeOne(Last(d, first + passes), indexed);
    SafeJoined(d, first + passes, [indexed]);
    BudgetSafe(indexed, call.order, 0, Total(indexed.files), call.settings.budget, call.lineage, n);
    SafeJoined(d, first + passes + [indexed],
               BudgetWrites(indexed, call.order, 0, Total(indexed.files), call.settings.budget, call.lineage, n));
  }

  // ── runs ──

  /** An `add` that completes, or whose process is killed after `cut` of its writes. */
  datatype Step = Step(call: Call, cut: Option<nat>)

  ghost predicate CanStep(d: Disk, step: Step) {
    Possible(d, step.call) && (step.cut.Some? ==> step.cut.value <= |AddWrites(d, step.call)|)
  }

  ghost function After(d: Disk, step: Step): Disk
    requires CanStep(d, step)
  {
    if step.cut.None? then AfterAdd(d, step.call) else Last(d, AddWrites(d, step.call)[..step.cut.value])
  }

  ghost predicate IsRun(disks: seq<Disk>, steps: seq<Step>) {
    && |disks| == |steps| + 1 && Sound(disks[0])
    && forall i | 0 <= i < |steps| :: CanStep(disks[i], steps[i]) && disks[i + 1] == After(disks[i], steps[i])
  }

  lemma {:induction false} KeepsAlong(trace: seq<Disk>, k: nat)
    requires Safe(trace) && k < |trace|
    ensures Keeps(trace[0], trace[k])
  {
    if k > 0 {
      KeepsAlong(trace, k - 1);
      assert Keeps(trace[k - 1], trace[k - 1 + 1]);
      KeepsOn(trace[0], trace[k - 1], trace[k]);
    }
  }

  lemma StepKeeps(d: Disk, step: Step)
    requires Sound(d) && CanStep(d, step)
    ensures Sound(After(d, step)) && Keeps(d, After(d, step))
  {
    hide Sound, Keeps, AddWrites, Added;
    AddSafe(d, step.call);
    var writes := AddWrites(d, step.call);
    var trace, cut := [d] + writes, if step.cut.None? then |writes| else step.cut.value;
    assert trace[cut] == After(d, step);
    KeepsAlong(trace, cut);
  }

  lemma {:induction false} RunSound(disks: seq<Disk>, steps: seq<Step>, i: nat)
    requires IsRun(disks, steps) && i < |disks|
    ensures Sound(disks[i]) && (i > 0 ==> Keeps(disks[i - 1], disks[i]))
  {
    hide Sound, Keeps, CanStep, After;
    if i > 0 {
      RunSound(disks, steps, i - 1);
      StepKeeps(disks[i - 1], steps[i - 1]);
    }
  }

  /** Along any run of adds, completed or killed anywhere: a row once in the index names one drawing
      for good. Reading it later gives that drawing or is refused. */
  lemma RowsNeverTurn(disks: seq<Disk>, steps: seq<Step>, i: nat, j: nat, lineage: string, n: nat)
    requires IsRun(disks, steps) && i <= j < |disks|
    requires n < |IndexOf(disks[i], lineage).rows| && !IndexOf(disks[i], lineage).rows[n].blank
    ensures n < |IndexOf(disks[j], lineage).rows|
    ensures var row := IndexOf(disks[j], lineage).rows[n];
      && row.digest == IndexOf(disks[i], lineage).rows[n].digest
      && Read(disks[j], lineage, row) in {Refused, Drawing(IndexOf(disks[i], lineage).rows[n].digest)}
  {
    forall k | 0 <= k < |disks| ensures Sound(disks[k]) && (k > 0 ==> Keeps(disks[k - 1], disks[k])) {
      RunSound(disks, steps, k);
    }
    hide Sound, Keeps, IsRun, Read;
    RowsStay(disks, i, j, lineage, n);
  }

  // ── a kill in the middle of an eviction ──

  const SETTINGS := Settings(20, 25, 100)

  function Ten(text: string): Bytes {
    Bytes(text, 10)
  }

  function RowsOfA(): seq<Row> {
    [Row(0, 0, 0, Ten("x"), 10, false, false), Row(1, 1, 1, Ten("y"), 10, false, false)]
  }

  /** Two checkpoints of `a`, both on disk. */
  function Start(): Disk {
    Disk(map["a" := Index(2, RowsOfA())], map[Key("a", 0) := Ten("x"), Key("a", 1) := Ten("y")])
  }

  function AddTo(lineage: string, order: seq<string>): Call {
    Call(SETTINGS, order, lineage, 0, None, Some(Ten("z")))
  }

  /** `b`'s first checkpoint is added over the budget, and the process is killed when `a`'s oldest file
      is gone and `a`'s index is not yet written. */
  function Torn(): Disk {
    Disk(map["a" := Index(2, RowsOfA()), "b" := Index(1, [Row(0, 0, 0, Ten("z"), 10, false, false)])],
         map[Key("a", 1) := Ten("y"), Key("b", 0) := Ten("z")])
  }

  lemma OneRowStays(row: Row)
    requires row.sq == 0 && Live(row) && row.bytes == 10
    ensures CountTrimmed([row], SETTINGS, 0) == [row] && LineageTrimmed([row], SETTINGS, 0) == [row]
  {
    assert Count([row], 1) == 0 && Count([row], 0) == 0;
    assert SizeOf([row], 1) == 0 && SizeOf([row], 0) == 10;
  }

  lemma ThreeFiles(a: Key, b: Key, c: Key)
    requires a != b && b != c && a != c
    ensures Total(map[a := Ten("x"), b := Ten("y"), c := Ten("z")]) == 30
    ensures Total(map[a := Ten("y"), b := Ten("z"), c := Ten("z")]) == 30
  {
    forall x, y | true ensures Total(map[a := Ten(x), b := Ten(y), c := Ten("z")]) == 30 {
      var all := map[a := Ten(x), b := Ten(y), c := Ten("z")];
      TotalWithout(all, a);
      assert all - {a} == map[b := Ten(y), c := Ten("z")];
      TotalWithout(all - {a}, b);
      assert all - {a} - {b} == map[c := Ten("z")];
      TotalWithout(all - {a} - {b}, c);
      assert all - {a} - {b} - {c} == map[];
    }
  }

  lemma OldestOfA(size: int)
    requires size == 30
    ensures BySize(RowsOfA(), 0, size, 25, None) == Trim(RowsOfA()[0 := Evicted(RowsOfA()[0])], 20)
  {
    var kept := RowsOfA()[0 := Evicted(RowsOfA()[0])];
    assert BySize(kept, 1, 20, 25, None) == Trim(kept, 20);
  }

  function RowOfB(): Row {
    Row(0, 0, 0, Ten("z"), 10, false, false)
  }

  /** `b`'s checkpoint is in its index, over the budget. */
  function Over(): Disk {
    Disk(Torn().indexes, map[Key("a", 0) := Ten("x"), Key("a", 1) := Ten("y"), Key("b", 0) := Ten("z")])
  }

  lemma StartSound()
    ensures Sound(Start()) && Possible(Start(), AddTo("b", ["a", "b"])) && Whole(Start(), "b", Some(Ten("z")))
  {
  }

  lemma TornSound()
    ensures Sound(Torn()) && Possible(Torn(), AddTo("c", ["a", "b", "c"]))
  {
  }

  lemma FirstIndexed()
    ensures AfterIndex(Start(), AddTo("b", ["a", "b"])) == Over()
    ensures LineageWrites(Written(Start(), AddTo("b", ["a", "b"])), "b", [RowOfB()], SETTINGS, 0) == []
    ensures IndexOf(Start(), "b").rows + [RowOf(Start(), AddTo("b", ["a", "b"]))] == [RowOfB()]
  {
    hide LineageTrimmed, CountTrimmed;
    assert RowOf(Start(), AddTo("b", ["a", "b"])) == RowOfB();
    assert [] + [RowOfB()] == [RowOfB()];
    OneRowStays(RowOfB());
    RestStays(Written(Start(), AddTo("b", ["a", "b"])), "b", [RowOfB()], [RowOfB()], 0);
    var files := Written(Start(), AddTo("b", ["a", "b"])).files;
    assert files == Over().files;
    assert Purged(files, "b", [RowOfB()]) == files;
  }

  lemma FirstShare()
    ensures var kept := RowsOfA()[0 := Evicted(RowsOfA()[0])];
      ShareWrites(Over(), "a", kept) != [] && ShareWrites(Over(), "a", kept)[0] == Torn()
  {
    var kept := RowsOfA()[0 := Evicted(RowsOfA()[0])];
    var unlinks := Unlinks(Over(), "a", RowsOfA(), kept, 0);
    assert unlinks != [] && unlinks[0] == Unlinked(Over(), "a", 0);
    assert Unlinked(Over(), "a", 0).files == Torn().files;
  }

  lemma FirstAdd()
    ensures var writes := AddWrites(Start(), AddTo("b", ["a", "b"])); |writes| >= 3 && writes[2] == Torn()
  {
    hide Total, LineageWrites, ShareWrites, BySize, Written, AfterIndex;
    var call := AddTo("b", ["a", "b"]);
    FirstIndexed();
    ThreeFiles(Key("a", 0), Key("a", 1), Key("b", 0));
    OldestOfA(30);
    FirstShare();
    var kept := RowsOfA()[0 := Evicted(RowsOfA()[0])];
    var budgeted := BudgetWrites(Over(), call.order, 0, 30, 25, "b", 0);
    assert budgeted != [] && budgeted[0] == Torn();
    assert AddWrites(Start(), call) == [Written(Start(), call)] + [] + [Over()] + budgeted;
  }

  lemma SecondIndexed()
    ensures var indexed := AfterIndex(Torn(), AddTo("c", ["a", "b", "c"]));
      && indexed.files == map[Key("a", 1) := Ten("y"), Key("b", 0) := Ten("z"), Key("c", 0) := Ten("z")]
      && IndexOf(indexed, "a").rows == RowsOfA()
  {
    hide LineageTrimmed, CountTrimmed;
    var call := AddTo("c", ["a", "b", "c"]);
    assert RowOf(Torn(), call) == RowOfB();
    assert [] + [RowOfB()] == [RowOfB()];
    OneRowStays(RowOfB());
    var files := Written(Torn(), call).files;
    assert Purged(files, "c", [RowOfB()]) == files;
  }

  lemma SecondAdd()
    ensures Total(AfterAdd(Torn(), AddTo("c", ["a", "b", "c"])).files) == 30
  {
    hide Total, Indexed, BySize, Budgeted;
    var call := AddTo("c", ["a", "b", "c"]);
    var indexed := AfterIndex(Torn(), call);
    SecondIndexed();
    ThreeFiles(Key("a", 1), Key("b", 0), Key("c", 0));
    OldestOfA(30);
    var kept := RowsOfA()[0 := Evicted(RowsOfA()[0])];
    BudgetedStep(indexed, call.order, 0, 30, 25, "c", 0);
    assert Purged(indexed.files, "a", kept) == indexed.files;
  }

  function KilledAndResumed(): seq<Step> {
    [Step(AddTo("b", ["a", "b"]), Some(3)), Step(AddTo("c", ["a", "b", "c"]), None)]
  }

  /** A run from a whole store: one add killed at its third write, one completed. The phantom row's bytes
      are taken off the count, so the eviction stops early, with 30 bytes on disk against a budget of 25
      and a new checkpoint of 10. */
  lemma KilledEvictionOverruns() returns (end: Disk)
    ensures IsRun([Start(), Torn(), end], KilledAndResumed()) && Whole(Start(), "b", Some(Ten("z")))
    ensures Total(end.files) == 30 > MaxInt(SETTINGS.budget, Ten("z").packed)
  {
    hide Total, AddWrites, Added, Sound, Possible, Start, Torn, Whole;
    StartSound();
    TornSound();
    FirstAdd();
    SecondAdd();
    var steps := KilledAndResumed();
    assert Last(Start(), AddWrites(Start(), steps[0].call)[..3]) == AddWrites(Start(), steps[0].call)[2];
    end := After(Torn(), steps[1]);
  }
}
