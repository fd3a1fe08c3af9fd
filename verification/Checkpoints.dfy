/** The checkpoint store of backends/checkpoints.py: files and an index a lineage, evictions, and a
    process that can be killed between any two writes.

    A row's `digest` is the sha256 of the drawing it was made from, and sha256 is injective, so it
    stands for that drawing. A file name is its sequence number. The index is replaced in one step. */
module Checkpoints {

  import opened Wrappers

  /** A drawing's bytes and the length gzip packs them to. */
  datatype Bytes = Bytes(text: string, packed: nat)

  /** `bytes` is the packed length, 0 for a blank row. */
  datatype Row = Row(sq: nat, rev: int, base: int, digest: Bytes, bytes: nat, blank: bool, evicted: bool)

  datatype Index = Index(nextSeq: nat, rows: seq<Row>)

  datatype Key = Key(lineage: string, sq: nat)

  /** What a kill leaves. */
  datatype Disk = Disk(indexes: map<string, Index>, files: map<Key, Bytes>)

  datatype Settings = Settings(keep: int, budget: int, maxDoc: int)

  const EMPTY := Index(0, [])

  function IndexOf(d: Disk, lineage: string): Index {
    if lineage in d.indexes then d.indexes[lineage] else EMPTY
  }

  function Live(row: Row): bool {
    !row.evicted
  }

  // ── what every moment keeps ──

  /** gzip packs nothing to nothing. */
  predicate RowOk(row: Row, i: nat) {
    row.sq == i && if row.blank then row.bytes == 0 else row.bytes == row.digest.packed > 0
  }

  predicate Numbered(index: Index) {
    && index.nextSeq == |index.rows|
    && forall i | 0 <= i < |index.rows| :: RowOk(index.rows[i], i)
  }

  /** A file is a live row's drawing; or a kill's, its row never written or since written blank. */
  predicate FileOk(d: Disk, key: Key)
    requires key in d.files
  {
    var index := IndexOf(d, key.lineage);
    if key.sq < |index.rows| then
      index.rows[key.sq].blank || (Live(index.rows[key.sq]) && index.rows[key.sq].digest == d.files[key])
    else key.sq == |index.rows|
  }

  ghost predicate Sound(d: Disk) {
    && (forall lineage | lineage in d.indexes :: Numbered(d.indexes[lineage]))
    && (forall key | key in d.files :: FileOk(d, key))
  }

  /** The rows of the first are the first rows of the second, some of them evicted since. */
  predicate Continues(rows: seq<Row>, later: seq<Row>) {
    && |rows| <= |later|
    && forall i | 0 <= i < |rows| ::
         later[i].(evicted := rows[i].evicted) == rows[i] && (rows[i].evicted ==> later[i].evicted)
  }

  ghost predicate Keeps(d: Disk, later: Disk) {
    forall lineage :: Continues(IndexOf(d, lineage).rows, IndexOf(later, lineage).rows)
  }

  lemma KeepsOn(a: Disk, b: Disk, c: Disk)
    requires Keeps(a, b) && Keeps(b, c)
    ensures Keeps(a, c)
  {
    forall lineage ensures Continues(IndexOf(a, lineage).rows, IndexOf(c, lineage).rows) {
      assert Continues(IndexOf(a, lineage).rows, IndexOf(b, lineage).rows);
      assert Continues(IndexOf(b, lineage).rows, IndexOf(c, lineage).rows);
    }
  }

  datatype Answer = Refused | BlankDrawing | Drawing(bytes: Bytes)

  /** `read`. */
  function Read(d: Disk, lineage: string, row: Row): Answer {
    if row.evicted then Refused
    else if row.blank then BlankDrawing
    else if Key(lineage, row.sq) in d.files then Drawing(d.files[Key(lineage, row.sq)])
    else Refused
  }

  /** Along any run of disks each sound and each keeping the rows before it: a row once in the index
      names one drawing for good. Reading it later gives that drawing or is refused. */
  lemma {:induction false} RowsStay(run: seq<Disk>, i: nat, j: nat, lineage: string, n: nat)
    requires i <= j < |run| && (forall k | 0 <= k < |run| :: Sound(run[k])) && (forall k | 0 <= k < |run| - 1 :: Keeps(run[k], run[k + 1]))
    requires n < |IndexOf(run[i], lineage).rows| && !IndexOf(run[i], lineage).rows[n].blank
    ensures n < |IndexOf(run[j], lineage).rows|
    ensures var row := IndexOf(run[j], lineage).rows[n];
      && row.digest == IndexOf(run[i], lineage).rows[n].digest
      && Read(run[j], lineage, row) in {Refused, Drawing(IndexOf(run[i], lineage).rows[n].digest)}
    decreases j
  {
    if i < j {
      RowsStay(run, i, j - 1, lineage, n);
      assert Keeps(run[j - 1], run[j - 1 + 1]);
      assert Continues(IndexOf(run[j - 1], lineage).rows, IndexOf(run[j], lineage).rows);
    }
    assert Sound(run[j]);
    var row := IndexOf(run[j], lineage).rows[n];
    if Read(run[j], lineage, row).Drawing? {
      assert FileOk(run[j], Key(lineage, row.sq));
    }
  }

  // ── sizes ──

  ghost function Total(files: map<Key, Bytes>): nat
    decreases |files|
  {
    if key :| key in files then files[key].packed + Total(files - {key}) else 0
  }

  lemma {:induction false} TotalWithout(files: map<Key, Bytes>, key: Key)
    requires key in files
    ensures Total(files) == files[key].packed + Total(files - {key})
    decreases |files|
  {
    var other :| other in files && Total(files) == files[other].packed + Total(files - {other});
    if other != key {
      TotalWithout(files - {other}, key);
      TotalWithout(files - {key}, other);
      assert files - {other} - {key} == files - {key} - {other};
    }
  }

  lemma TotalGone(files: map<Key, Bytes>, key: Key)
    ensures Total(files - {key}) == Total(files) - if key in files then files[key].packed else 0
  {
    if key in files {
      TotalWithout(files, key);
    } else {
      assert files - {key} == files;
    }
  }

  lemma {:induction false} TotalAtMost(files: map<Key, Bytes>, more: map<Key, Bytes>)
    requires forall key | key in files :: key in more && more[key] == files[key]
    ensures Total(files) <= Total(more)
    decreases |files|
  {
    if key :| key in files {
      TotalWithout(files, key);
      TotalWithout(more, key);
      TotalAtMost(files - {key}, more - {key});
    }
  }

  /** No row stands for the file: a kill left it before its row was written. */
  predicate Stray(d: Disk, key: Key) {
    var rows := IndexOf(d, key.lineage).rows;
    key.sq >= |rows| || rows[key.sq].blank
  }

  function Strays(d: Disk): map<Key, Bytes> {
    map key | key in d.files && Stray(d, key) :: d.files[key]
  }

  /** The bytes of live rows whose file is gone: a kill after an eviction's unlink and before its index
      was written leaves such rows. */
  function Phantoms(lineage: string, rows: seq<Row>, k: nat, files: map<Key, Bytes>): nat
    decreases |rows| - k
  {
    if k >= |rows| then 0
    else (if Live(rows[k]) && Key(lineage, rows[k].sq) !in files then rows[k].bytes else 0) + Phantoms(lineage, rows, k + 1, files)
  }

  function AllPhantoms(order: seq<string>, k: nat, d: Disk): nat
    decreases |order| - k
  {
    if k >= |order| then 0
    else Phantoms(order[k], IndexOf(d, order[k]).rows, 0, d.files) + AllPhantoms(order, k + 1, d)
  }

  // ── eviction ──

  function Evicted(row: Row): Row {
    row.(evicted := true)
  }

  /** Evict the oldest, never S0 or `keepSeq`, while there are too many. */
  function ByCount(rows: seq<Row>, k: nat, excess: int, keepSeq: nat): (kept: seq<Row>)
    ensures |kept| == |rows|
    decreases |rows| - k
  {
    if k >= |rows| || excess <= 0 then rows
    else if Live(rows[k]) && rows[k].sq != 0 && rows[k].sq != keepSeq then ByCount(rows[k := Evicted(rows[k])], k + 1, excess - 1, keepSeq)
    else ByCount(rows, k + 1, excess, keepSeq)
  }

  datatype Trim = Trim(rows: seq<Row>, size: int)

  /** Evict the oldest that has bytes, never `keepSeq`, while the size is over the cap. */
  function BySize(rows: seq<Row>, k: nat, size: int, cap: int, keepSeq: Option<nat>): (trim: Trim)
    ensures |trim.rows| == |rows|
    decreases |rows| - k
  {
    if k >= |rows| || size <= cap then Trim(rows, size)
    else if Live(rows[k]) && rows[k].bytes > 0 && Some(rows[k].sq) != keepSeq then
      BySize(rows[k := Evicted(rows[k])], k + 1, size - rows[k].bytes, cap, keepSeq)
    else BySize(rows, k + 1, size, cap, keepSeq)
  }

  /** Live rows besides S0, from `k`. */
  function Count(rows: seq<Row>, k: nat): nat
    decreases |rows| - k
  {
    if k >= |rows| then 0 else (if Live(rows[k]) && rows[k].sq != 0 then 1 else 0) + Count(rows, k + 1)
  }

  function SizeOf(rows: seq<Row>, k: nat): nat
    decreases |rows| - k
  {
    if k >= |rows| then 0 else (if Live(rows[k]) then rows[k].bytes else 0) + SizeOf(rows, k + 1)
  }

  /** The files left when the rows evicted lost theirs. */
  function Purged(files: map<Key, Bytes>, lineage: string, rows: seq<Row>): map<Key, Bytes> {
    map key | key in files && !(key.lineage == lineage && key.sq < |rows| && rows[key.sq].evicted && !rows[key.sq].blank) :: files[key]
  }

  function MaxInt(a: int, b: int): int {
    if a < b then b else a
  }

  function Kept(lineage: string, current: string, keepSeq: nat): Option<nat> {
    if lineage == current then Some(keepSeq) else None
  }

  /** `_evict_budget`, from lineage `k` of `order`, `total` bytes counted on disk. */
  function Budgeted(d: Disk, order: seq<string>, k: nat, total: int, budget: int, current: string, keepSeq: nat): Disk
    decreases |order| - k
  {
    if k >= |order| || total <= budget then d
    else
      var rows := IndexOf(d, order[k]).rows;
      var trim := BySize(rows, 0, total, budget, Kept(order[k], current, keepSeq));
      Budgeted(WithRows(d, order[k], trim.rows), order, k + 1, trim.size, budget, current, keepSeq)
  }

  /** The lineage's rows rewritten, the evicted ones' files gone. */
  function WithRows(d: Disk, lineage: string, rows: seq<Row>): Disk {
    Disk(if rows == IndexOf(d, lineage).rows then d.indexes else d.indexes[lineage := Index(|rows|, rows)], Purged(d.files, lineage, rows))
  }

  function NewRow(d: Disk, lineage: string, rev: int, base: Option<int>, content: Option<Bytes>): Row {
    Row(|IndexOf(d, lineage).rows|, rev, if base.Some? && base.value < rev then base.value else rev,
        if content.Some? then content.value else Bytes("", 0), if content.Some? then content.value.packed else 0, content.None?, false)
  }

  /** The lineage's rows after `_evict_lineage`. */
  function LineageTrimmed(rows: seq<Row>, settings: Settings, keepSeq: nat): (kept: seq<Row>)
    ensures |kept| == |rows|
  {
    var byCount := ByCount(rows, 0, Count(rows, 0) - MaxInt(1, settings.keep), keepSeq);
    BySize(byCount, 0, SizeOf(byCount, 0), settings.maxDoc, Some(keepSeq)).rows
  }

  /** The disk when the row is in the index and the budget is still to be kept. */
  function Indexed(d: Disk, settings: Settings, lineage: string, rev: int, base: Option<int>, content: Option<Bytes>): Disk {
    var n := |IndexOf(d, lineage).rows|;
    var rows := LineageTrimmed(IndexOf(d, lineage).rows + [NewRow(d, lineage, rev, base, content)], settings, n);
    var files := if content.Some? then d.files[Key(lineage, n) := content.value] else d.files;
    Disk(d.indexes[lineage := Index(n + 1, rows)], Purged(files, lineage, rows))
  }

  /** `add`. `order` is every lineage with a folder, least recently written first, this one last. */
  ghost function Added(d: Disk, settings: Settings, order: seq<string>, lineage: string, rev: int, base: Option<int>, content: Option<Bytes>): Disk {
    var indexed := Indexed(d, settings, lineage, rev, base, content);
    Budgeted(indexed, order, 0, Total(indexed.files), settings.budget, lineage, |IndexOf(d, lineage).rows|)
  }

  // ── which rows go ──

  /** Between the two, rows were evicted only, `keepSeq` not, and no row with bytes outlived a newer
      one that was evicted. */
  ghost predicate OldestFirst(rows: seq<Row>, kept: seq<Row>, keepSeq: Option<nat>) {
    && Continues(rows, kept) && |kept| == |rows|
    && (forall i | 0 <= i < |rows| && Some(i) == keepSeq :: kept[i] == rows[i])
    && (forall i, j | 0 <= i < |rows| && 0 < j < |rows| && rows[i] != kept[i] && Live(kept[j]) && kept[j].bytes > 0 :: i < j)
  }

  ghost predicate Sequenced(rows: seq<Row>) {
    forall i | 0 <= i < |rows| :: rows[i].sq == i
  }

  lemma {:induction false} CountAfter(rows: seq<Row>, k: nat, i: nat)
    requires i < |rows| && Live(rows[i]) && rows[i].sq != 0
    ensures Count(rows[i := Evicted(rows[i])], k) == Count(rows, k) - if k <= i then 1 else 0
    decreases |rows| - k
  {
    if k < |rows| {
      CountAfter(rows, k + 1, i);
    }
  }

  lemma {:induction false} CountOfOne(rows: seq<Row>, k: nat, keepSeq: nat)
    requires Sequenced(rows) && forall i | k <= i < |rows| && Live(rows[i]) && i != 0 :: i == keepSeq
    ensures Count(rows, k) <= if k <= keepSeq then 1 else 0
    decreases |rows| - k
  {
    if k < |rows| {
      CountOfOne(rows, k + 1, keepSeq);
    }
  }

  /** Evicting the next one offered is oldest first. */
  lemma EvictedOldest(first: seq<Row>, rows: seq<Row>, k: nat, keepSeq: Option<nat>)
    requires k < |rows| && Live(rows[k]) && Some(k) != keepSeq && OldestFirst(first, rows, keepSeq)
    requires forall j | 0 < j < k && Live(rows[j]) && rows[j].bytes > 0 :: Some(j) == keepSeq
    requires keepSeq.Some? ==> keepSeq.value == |rows| - 1
    ensures OldestFirst(first, rows[k := Evicted(rows[k])], keepSeq)
  {
  }

  lemma ContinuesEvicted(rows: seq<Row>, k: nat, later: seq<Row>)
    requires k < |rows| && Continues(rows[k := Evicted(rows[k])], later)
    ensures Continues(rows, later)
  {
    forall i | 0 <= i < |rows| ensures later[i].(evicted := rows[i].evicted) == rows[i] && (rows[i].evicted ==> later[i].evicted) {
      assert later[i].(evicted := rows[k := Evicted(rows[k])][i].evicted) == rows[k := Evicted(rows[k])][i];
    }
  }

  /** By count: at most the excess is left over, oldest first. `done` rows before `k` were offered. */
  lemma {:induction false} ByCountKeeps(first: seq<Row>, rows: seq<Row>, k: nat, excess: int, most: nat, keepSeq: nat)
    requires Sequenced(rows) && most >= 1 && excess == Count(rows, 0) - most && OldestFirst(first, rows, Some(keepSeq))
    requires forall i | 0 < i < k && i < |rows| && Live(rows[i]) :: i == keepSeq
    requires keepSeq == |rows| - 1
    ensures var kept := ByCount(rows, k, excess, keepSeq);
      OldestFirst(first, kept, Some(keepSeq)) && Sequenced(kept) && Count(kept, 0) <= most
    decreases |rows| - k
  {
    hide OldestFirst;
    if k >= |rows| {
      CountOfOne(rows, 0, keepSeq);
    } else if excess > 0 {
      if Live(rows[k]) && rows[k].sq != 0 && rows[k].sq != keepSeq {
        CountAfter(rows, 0, k);
        EvictedOldest(first, rows, k, Some(keepSeq));
        ByCountKeeps(first, rows[k := Evicted(rows[k])], k + 1, excess - 1, most, keepSeq);
      } else {
        ByCountKeeps(first, rows, k + 1, excess, most, keepSeq);
      }
    }
  }

  /** By size: oldest first; and in the end the size is within the cap, or nothing but `keepSeq` with
      bytes is left. */
  lemma {:induction false} BySizeKeeps(first: seq<Row>, rows: seq<Row>, k: nat, size: int, cap: int, keepSeq: Option<nat>)
    requires Sequenced(rows) && OldestFirst(first, rows, keepSeq)
    requires forall i | 0 <= i < k && i < |rows| && Live(rows[i]) && rows[i].bytes > 0 :: Some(i) == keepSeq
    requires keepSeq.Some? ==> keepSeq.value == |rows| - 1
    ensures var trim := BySize(rows, k, size, cap, keepSeq);
      && OldestFirst(first, trim.rows, keepSeq) && Sequenced(trim.rows) && Continues(rows, trim.rows)
      && (trim.size <= cap || forall i | 0 <= i < |rows| && Live(trim.rows[i]) && trim.rows[i].bytes > 0 :: Some(i) == keepSeq)
    decreases |rows| - k
  {
    hide OldestFirst;
    if k < |rows| && size > cap {
      if Live(rows[k]) && rows[k].bytes > 0 && Some(rows[k].sq) != keepSeq {
        var next := rows[k := Evicted(rows[k])];
        EvictedOldest(first, rows, k, keepSeq);
        BySizeKeeps(first, next, k + 1, size - rows[k].bytes, cap, keepSeq);
        ContinuesEvicted(rows, k, BySize(next, k + 1, size - rows[k].bytes, cap, keepSeq).rows);
      } else {
        BySizeKeeps(first, rows, k + 1, size, cap, keepSeq);
      }
    }
  }

  lemma {:induction false} CountContinues(rows: seq<Row>, later: seq<Row>, k: nat)
    requires Continues(rows, later) && |later| == |rows|
    ensures Count(later, k) <= Count(rows, k)
    decreases |rows| - k
  {
    if k < |rows| {
      CountContinues(rows, later, k + 1);
    }
  }

  lemma LineageKept(rows: seq<Row>, settings: Settings, keepSeq: nat)
    requires Sequenced(rows) && keepSeq == |rows| - 1
    ensures var kept := LineageTrimmed(rows, settings, keepSeq);
      OldestFirst(rows, kept, Some(keepSeq)) && Sequenced(kept) && Count(kept, 0) <= MaxInt(1, settings.keep)
  {
    ByCountKeeps(rows, rows, 0, Count(rows, 0) - MaxInt(1, settings.keep), MaxInt(1, settings.keep), keepSeq);
    var byCount := ByCount(rows, 0, Count(rows, 0) - MaxInt(1, settings.keep), keepSeq);
    BySizeKeeps(rows, byCount, 0, SizeOf(byCount, 0), settings.maxDoc, Some(keepSeq));
    BySizeKeeps(byCount, byCount, 0, SizeOf(byCount, 0), settings.maxDoc, Some(keepSeq));
    CountContinues(byCount, LineageTrimmed(rows, settings, keepSeq), 0);
  }

  // ── exactly which rows go ──

  /** The bytes, from `k`, of the rows the cap on their number leaves: S0 and the newest `most`. */
  function SizeWithin(rows: seq<Row>, k: nat, most: int): nat
    decreases |rows| - k
  {
    if k >= |rows| then 0
    else (if Live(rows[k]) && (k == 0 || Count(rows, k) <= most) then rows[k].bytes else 0) + SizeWithin(rows, k + 1, most)
  }

  /** There are `most` newer live rows besides S0. */
  predicate CountedOut(rows: seq<Row>, i: nat, most: int)
    requires i < |rows|
  {
    Live(rows[i]) && i != 0 && Count(rows, i) > most
  }

  /** It and the newer rows the cap on their number leaves are over `cap` bytes. */
  predicate SizedOut(rows: seq<Row>, i: nat, most: int, cap: int)
    requires i < |rows|
  {
    Live(rows[i]) && rows[i].bytes > 0 && i < |rows| - 1 && SizeWithin(rows, i, most) > cap
  }

  lemma {:induction false} CountFalls(rows: seq<Row>, k: nat, i: nat)
    requires k <= i
    ensures Count(rows, i) <= Count(rows, k)
    decreases i - k
  {
    if k < i {
      CountFalls(rows, k + 1, i);
    }
  }

  lemma {:induction false} ByCountIff(rows: seq<Row>, k: nat, excess: int, most: nat, i: nat)
    requires Sequenced(rows) && most >= 1 && i < |rows| && excess == Count(rows, k) - most
    ensures var kept := ByCount(rows, k, excess, |rows| - 1);
      kept[i] == if i >= k && CountedOut(rows, i, most) then Evicted(rows[i]) else rows[i]
    decreases |rows| - k
  {
    if k < |rows| && excess > 0 {
      assert Count(rows, |rows|) == 0;
      assert k < |rows| - 1;
      if Live(rows[k]) && k != 0 {
        var next := rows[k := Evicted(rows[k])];
        CountAfter(rows, k + 1, k);
        if k < i {
          CountAfter(rows, i, k);
        }
        ByCountIff(next, k + 1, excess - 1, most, i);
      } else {
        ByCountIff(rows, k + 1, excess, most, i);
      }
    } else if k <= i {
      CountFalls(rows, k, i);
    }
  }

  lemma {:induction false} SizeAfter(rows: seq<Row>, k: nat, i: nat)
    requires i < |rows| && Live(rows[i])
    ensures SizeOf(rows[i := Evicted(rows[i])], k) == SizeOf(rows, k) - if k <= i then rows[i].bytes else 0
    decreases |rows| - k
  {
    if k < |rows| {
      SizeAfter(rows, k + 1, i);
    }
  }

  lemma {:induction false} SizeFalls(rows: seq<Row>, k: nat, i: nat)
    requires k <= i
    ensures SizeOf(rows, i) <= SizeOf(rows, k)
    decreases i - k
  {
    if k < i {
      SizeFalls(rows, k + 1, i);
    }
  }

  /** From a count of bytes of which `size - SizeOf(rows, k)` are elsewhere: who goes. */
  lemma {:induction false} BySizeIff(rows: seq<Row>, k: nat, size: int, cap: int, keepSeq: Option<nat>, i: nat)
    requires Sequenced(rows) && i < |rows| && (keepSeq.Some? ==> keepSeq.value == |rows| - 1)
    ensures var kept := BySize(rows, k, size, cap, keepSeq).rows;
      kept[i] == if i >= k && Live(rows[i]) && rows[i].bytes > 0 && Some(i) != keepSeq && size - SizeOf(rows, k) + SizeOf(rows, i) > cap
                 then Evicted(rows[i]) else rows[i]
    decreases |rows| - k
  {
    if k < |rows| && size > cap {
      if Live(rows[k]) && rows[k].bytes > 0 && Some(rows[k].sq) != keepSeq {
        var next := rows[k := Evicted(rows[k])];
        SizeAfter(rows, k + 1, k);
        if k < i {
          SizeAfter(rows, i, k);
        }
        BySizeIff(next, k + 1, size - rows[k].bytes, cap, keepSeq, i);
      } else {
        BySizeIff(rows, k + 1, size, cap, keepSeq, i);
      }
    } else if k <= i {
      SizeFalls(rows, k, i);
    }
  }

  /** What the count of bytes comes down to: never below what is elsewhere and `keepSeq`'s, and to
      just that if it stays over the cap. */
  lemma {:induction false} BySizeLeft(rows: seq<Row>, k: nat, size: int, cap: int, keepSeq: Option<nat>)
    requires Sequenced(rows) && k <= |rows| && (keepSeq.Some? ==> keepSeq.value == |rows| - 1)
    ensures var trim := BySize(rows, k, size, cap, keepSeq);
      var least := size - SizeOf(rows, k) + if keepSeq.Some? && k < |rows| && Live(rows[|rows| - 1]) then rows[|rows| - 1].bytes else 0;
      trim.size >= least && (trim.size > cap ==> trim.size == least)
    decreases |rows| - k
  {
    if k < |rows| {
      SizeFalls(rows, k, |rows| - 1);
      if size > cap {
        if Live(rows[k]) && rows[k].bytes > 0 && Some(rows[k].sq) != keepSeq {
          SizeAfter(rows, k + 1, k);
          BySizeLeft(rows[k := Evicted(rows[k])], k + 1, size - rows[k].bytes, cap, keepSeq);
        } else {
          BySizeLeft(rows, k + 1, size, cap, keepSeq);
        }
      }
    }
  }

  lemma {:induction false} SizeOfCounted(rows: seq<Row>, counted: seq<Row>, k: nat, most: nat)
    requires |counted| == |rows|
    requires forall i | 0 <= i < |rows| :: counted[i] == if CountedOut(rows, i, most) then Evicted(rows[i]) else rows[i]
    ensures SizeOf(counted, k) == SizeWithin(rows, k, most)
    decreases |rows| - k
  {
    if k < |rows| {
      SizeOfCounted(rows, counted, k + 1, most);
    }
  }

  /** A row is evicted if and only if it is beyond the newest so many, or beyond the newest so many bytes
      of those. */
  ghost predicate TrimmedTo(rows: seq<Row>, kept: seq<Row>, most: int, cap: int) {
    && |kept| == |rows|
    && forall i | 0 <= i < |rows| ::
         kept[i] == if CountedOut(rows, i, most) || SizedOut(rows, i, most, cap) then Evicted(rows[i]) else rows[i]
  }

  /** `_evict_lineage`, whose newest row is the one just added. */
  lemma LineageEvictsIff(rows: seq<Row>, settings: Settings)
    requires Sequenced(rows) && rows != []
    ensures TrimmedTo(rows, LineageTrimmed(rows, settings, |rows| - 1), MaxInt(1, settings.keep), settings.maxDoc)
  {
    hide ByCount, BySize, Count, SizeOf, SizeWithin;
    var most := MaxInt(1, settings.keep);
    var counted := ByCount(rows, 0, Count(rows, 0) - most, |rows| - 1);
    forall i | 0 <= i < |rows| ensures counted[i] == if CountedOut(rows, i, most) then Evicted(rows[i]) else rows[i] {
      ByCountIff(rows, 0, Count(rows, 0) - most, most, i);
    }
    forall i | 0 <= i < |rows|
      ensures LineageTrimmed(rows, settings, |rows| - 1)[i] ==
        if CountedOut(rows, i, most) || SizedOut(rows, i, most, settings.maxDoc) then Evicted(rows[i]) else rows[i]
    {
      SizeOfCounted(rows, counted, i, most);
      BySizeIff(counted, 0, SizeOf(counted, 0), settings.maxDoc, Some(|rows| - 1 as nat), i);
    }
  }

  lemma {:induction false} BySizeSum(rows: seq<Row>, k: nat, size: int, cap: int, keepSeq: Option<nat>)
    ensures var trim := BySize(rows, k, size, cap, keepSeq); trim.size - SizeOf(trim.rows, 0) == size - SizeOf(rows, 0)
    decreases |rows| - k
  {
    if k < |rows| && size > cap {
      if Live(rows[k]) && rows[k].bytes > 0 && Some(rows[k].sq) != keepSeq {
        SizeAfter(rows, 0, k);
        BySizeSum(rows[k := Evicted(rows[k])], k + 1, size - rows[k].bytes, cap, keepSeq);
      } else {
        BySizeSum(rows, k + 1, size, cap, keepSeq);
      }
    }
  }

  /** Within the cap on bytes, or down to the newest row. */
  ghost predicate Capped(rows: seq<Row>, cap: int) {
    SizeOf(rows, 0) <= cap || forall i | 0 <= i < |rows| && Live(rows[i]) && rows[i].bytes > 0 :: i == |rows| - 1
  }

  lemma LineageCapped(rows: seq<Row>, settings: Settings)
    requires Sequenced(rows) && rows != []
    ensures Capped(LineageTrimmed(rows, settings, |rows| - 1), settings.maxDoc)
  {
    hide OldestFirst, ByCount, BySize, SizeOf, Count;
    var n := |rows| - 1;
    var most := MaxInt(1, settings.keep);
    SelfOldest(rows, Some(n));
    ByCountKeeps(rows, rows, 0, Count(rows, 0) - most, most, n);
    var counted := ByCount(rows, 0, Count(rows, 0) - most, n);
    BySizeKeeps(rows, counted, 0, SizeOf(counted, 0), settings.maxDoc, Some(n));
    BySizeSum(counted, 0, SizeOf(counted, 0), settings.maxDoc, Some(n));
  }

  lemma {:induction false} SizeContinues(rows: seq<Row>, later: seq<Row>, k: nat)
    requires Continues(rows, later) && |later| == |rows|
    ensures SizeOf(later, k) <= SizeOf(rows, k)
    decreases |rows| - k
  {
    if k < |rows| {
      SizeContinues(rows, later, k + 1);
    }
  }

  lemma CappedStays(rows: seq<Row>, later: seq<Row>, keepSeq: Option<nat>, cap: int)
    requires Capped(rows, cap) && OldestFirst(rows, later, keepSeq)
    ensures Capped(later, cap)
  {
    SizeContinues(rows, later, 0);
    forall i | 0 <= i < |later| && Live(later[i]) && later[i].bytes > 0 ensures Live(rows[i]) && rows[i].bytes > 0 {
      assert later[i].(evicted := rows[i].evicted) == rows[i];
    }
  }

  // ── exactly which rows the budget takes ──

  /** The bytes the budget may take of a lineage: its live rows', but the newest's of the current one. */
  function Spare(d: Disk, lineage: string, current: string): nat {
    var rows := IndexOf(d, lineage).rows;
    SizeOf(if lineage == current && rows != [] then rows[..|rows| - 1] else rows, 0)
  }

  lemma {:induction false} SizeButLast(rows: seq<Row>, k: nat)
    requires k < |rows|
    ensures SizeOf(rows, k) == SizeOf(rows[..|rows| - 1], k) + if Live(rows[|rows| - 1]) then rows[|rows| - 1].bytes else 0
    decreases |rows| - k
  {
    if k < |rows| - 1 {
      SizeButLast(rows, k + 1);
    }
  }

  /** And of the lineages from `k` to `j`. */
  function Older(d: Disk, order: seq<string>, k: nat, j: nat, current: string): nat
    requires j <= |order|
    decreases j - k
  {
    if k >= j then 0 else Spare(d, order[k], current) + Older(d, order, k + 1, j, current)
  }

  /** With every older row that may go gone, `total` is still over the budget. */
  predicate Overspent(d: Disk, order: seq<string>, k: nat, j: nat, i: nat, total: int, budget: int, current: string, keepSeq: nat)
    requires j < |order| && i < |IndexOf(d, order[j]).rows|
  {
    var rows := IndexOf(d, order[j]).rows;
    && Live(rows[i]) && rows[i].bytes > 0 && Some(i) != Kept(order[j], current, keepSeq)
    && total - Older(d, order, k, j, current) - (SizeOf(rows, 0) - SizeOf(rows, i)) > budget
  }

  lemma {:induction false} OlderSame(d: Disk, later: Disk, order: seq<string>, k: nat, j: nat, current: string)
    requires j <= |order| && forall i | k <= i < j :: IndexOf(later, order[i]) == IndexOf(d, order[i])
    ensures Older(later, order, k, j, current) == Older(d, order, k, j, current)
    decreases j - k
  {
    if k < j {
      OlderSame(d, later, order, k + 1, j, current);
    }
  }

  lemma {:induction false} BudgetedOthers(d: Disk, order: seq<string>, k: nat, total: int, budget: int, current: string, keepSeq: nat, lineage: string)
    requires forall i | k <= i < |order| :: order[i] != lineage
    ensures IndexOf(Budgeted(d, order, k, total, budget, current, keepSeq), lineage) == IndexOf(d, lineage)
    decreases |order| - k
  {
    hide BySize;
    if k < |order| && total > budget {
      BudgetedStep(d, order, k, total, budget, current, keepSeq);
      var trim := BySize(IndexOf(d, order[k]).rows, 0, total, budget, Kept(order[k], current, keepSeq));
      BudgetedOthers(WithRows(d, order[k], trim.rows), order, k + 1, trim.size, budget, current, keepSeq, lineage);
    }
  }

  lemma {:induction false} BudgetEvictsIff(
    d: Disk, order: seq<string>, k: nat, total: int, budget: int, current: string, keepSeq: nat, j: nat, i: nat)
    requires Sound(d) && DistinctNames(order) && keepSeq == |IndexOf(d, current).rows| - 1
    requires k <= j < |order| && i < |IndexOf(d, order[j]).rows|
    ensures var rows := IndexOf(d, order[j]).rows;
      var kept := IndexOf(Budgeted(d, order, k, total, budget, current, keepSeq), order[j]).rows;
      |kept| == |rows| && kept[i] == if Overspent(d, order, k, j, i, total, budget, current, keepSeq) then Evicted(rows[i]) else rows[i]
    decreases |order| - k
  {
    hide Sound, BySize, SizeOf, Budgeted, Spare;
    var rows := IndexOf(d, order[k]).rows;
    HoldsRows(d, order[k]);
    SizeFalls(IndexOf(d, order[j]).rows, 0, i);
    if total > budget {
      var spared := Kept(order[k], current, keepSeq);
      var trim := BySize(rows, 0, total, budget, spared);
      var later := WithRows(d, order[k], trim.rows);
      BudgetedStep(d, order, k, total, budget, current, keepSeq);
      SelfOldest(rows, spared);
      BySizeKeeps(rows, rows, 0, total, budget, spared);
      WithRowsSound(d, order[k], trim.rows);
      if j == k {
        BySizeIff(rows, 0, total, budget, spared, i);
        BudgetedOthers(later, order, k + 1, trim.size, budget, current, keepSeq, order[k]);
      } else {
        SpareLeft(d, order[k], total, budget, current, keepSeq);
        OlderSame(d, later, order, k + 1, j, current);
        SparedLength(rows, trim.rows, spared);
        if trim.size > budget {
          BudgetEvictsIff(later, order, k + 1, trim.size, budget, current, keepSeq, j, i);
        }
      }
    } else {
      BudgetIdle(d, order, k, total, budget, current, keepSeq);
    }
  }

  lemma SparedLength(rows: seq<Row>, kept: seq<Row>, keepSeq: Option<nat>)
    requires OldestFirst(rows, kept, keepSeq)
    ensures |kept| == |rows|
  {
  }

  lemma BudgetIdle(d: Disk, order: seq<string>, k: nat, total: int, budget: int, current: string, keepSeq: nat)
    requires total <= budget
    ensures Budgeted(d, order, k, total, budget, current, keepSeq) == d
  {
  }

  lemma SpareLeft(d: Disk, lineage: string, total: int, budget: int, current: string, keepSeq: nat)
    requires Sequenced(IndexOf(d, lineage).rows) && keepSeq == |IndexOf(d, current).rows| - 1
    ensures var trim := BySize(IndexOf(d, lineage).rows, 0, total, budget, Kept(lineage, current, keepSeq));
      var least := total - Spare(d, lineage, current);
      trim.size >= least && (trim.size > budget ==> trim.size == least)
  {
    hide BySize;
    var rows := IndexOf(d, lineage).rows;
    BySizeLeft(rows, 0, total, budget, Kept(lineage, current, keepSeq));
    if rows != [] {
      SizeButLast(rows, 0);
    }
  }

  // ── how many bytes stay ──

  lemma {:induction false} PhantomsSame(lineage: string, rows: seq<Row>, later: seq<Row>, k: nat, files: map<Key, Bytes>, left: map<Key, Bytes>)
    requires |later| == |rows| && forall i | k <= i < |rows| :: later[i] == rows[i] && (Key(lineage, rows[i].sq) in left <==> Key(lineage, rows[i].sq) in files)
    ensures Phantoms(lineage, later, k, left) == Phantoms(lineage, rows, k, files)
    decreases |rows| - k
  {
    if k < |rows| {
      PhantomsSame(lineage, rows, later, k + 1, files, left);
    }
  }

  lemma {:induction false} AllPhantomsSame(order: seq<string>, k: nat, d: Disk, later: Disk)
    requires forall i | k <= i < |order| :: IndexOf(later, order[i]) == IndexOf(d, order[i])
    requires forall i, key: Key | k <= i < |order| && key.lineage == order[i] :: key in later.files <==> key in d.files
    ensures AllPhantoms(order, k, later) == AllPhantoms(order, k, d)
    decreases |order| - k
  {
    if k < |order| {
      var rows := IndexOf(d, order[k]).rows;
      PhantomsSame(order[k], rows, rows, 0, d.files, later.files);
      AllPhantomsSame(order, k + 1, d, later);
    }
  }

  lemma PurgedOne(files: map<Key, Bytes>, lineage: string, rows: seq<Row>, k: nat)
    requires k < |rows| && Live(rows[k]) && !rows[k].blank
    ensures Purged(files, lineage, rows[k := Evicted(rows[k])]) == Purged(files, lineage, rows) - {Key(lineage, k)}
  {
  }

  /** The files of live rows hold those rows' drawings. */
  ghost predicate Holding(files: map<Key, Bytes>, lineage: string, rows: seq<Row>) {
    forall i | 0 <= i < |rows| && Live(rows[i]) && rows[i].bytes > 0 ::
      !rows[i].blank && (Key(lineage, i) in files ==> rows[i].bytes == files[Key(lineage, i)].packed)
  }

  /** What the count of bytes takes off for one lineage is off the disk, but for its phantoms. */
  lemma {:induction false} BySizeFrees(files: map<Key, Bytes>, lineage: string, rows: seq<Row>, k: nat, size: int, cap: int, keepSeq: Option<nat>)
    requires Sequenced(rows) && Holding(files, lineage, rows)
    ensures var trim := BySize(rows, k, size, cap, keepSeq);
      Total(Purged(files, lineage, trim.rows)) <=
      Total(Purged(files, lineage, rows)) - (size - trim.size) + Phantoms(lineage, rows, k, files)
    decreases |rows| - k
  {
    if k < |rows| && size > cap {
      if Live(rows[k]) && rows[k].bytes > 0 && Some(rows[k].sq) != keepSeq {
        var next := rows[k := Evicted(rows[k])];
        PurgedOne(files, lineage, rows, k);
        TotalGone(Purged(files, lineage, rows), Key(lineage, k));
        PhantomsSame(lineage, rows, next, k + 1, files, files);
        BySizeFrees(files, lineage, next, k + 1, size - rows[k].bytes, cap, keepSeq);
      } else {
        BySizeFrees(files, lineage, rows, k + 1, size, cap, keepSeq);
      }
    }
  }

  lemma WithRowsIndexes(d: Disk, lineage: string, rows: seq<Row>)
    requires Sound(d) && Continues(IndexOf(d, lineage).rows, rows) && |rows| == |IndexOf(d, lineage).rows|
    ensures var later := WithRows(d, lineage, rows);
      && IndexOf(later, lineage) == Index(|rows|, rows)
      && (forall other | other != lineage :: IndexOf(later, other) == IndexOf(d, other))
      && (forall other | other in later.indexes :: Numbered(later.indexes[other]))
  {
    forall i | 0 <= i < |rows| ensures RowOk(rows[i], i) {
      assert RowOk(IndexOf(d, lineage).rows[i], i);
    }
  }

  lemma WithRowsSound(d: Disk, lineage: string, rows: seq<Row>)
    requires Sound(d) && Continues(IndexOf(d, lineage).rows, rows) && |rows| == |IndexOf(d, lineage).rows|
    ensures Sound(WithRows(d, lineage, rows)) && Keeps(d, WithRows(d, lineage, rows))
    ensures IndexOf(WithRows(d, lineage, rows), lineage).rows == rows && Strays(WithRows(d, lineage, rows)) == Strays(d)
    ensures forall other | other != lineage :: IndexOf(WithRows(d, lineage, rows), other) == IndexOf(d, other)
  {
    hide Numbered;
    var later := WithRows(d, lineage, rows);
    WithRowsIndexes(d, lineage, rows);
    forall key | key in later.files ensures FileOk(later, key) {
      assert FileOk(d, key);
      assert key.lineage == lineage && key.sq < |rows| ==> rows[key.sq].(evicted := IndexOf(d, lineage).rows[key.sq].evicted) == IndexOf(d, lineage).rows[key.sq];
    }
    forall other ensures Continues(IndexOf(d, other).rows, IndexOf(later, other).rows) {
    }
  }

  ghost predicate DistinctNames(order: seq<string>) {
    forall i, j | 0 <= i < j < |order| :: order[i] != order[j]
  }

  /** The lineages before `k` are down to the file just written and strays. */
  ghost predicate Drained(d: Disk, order: seq<string>, k: nat, kept: Key) {
    forall key, i | key in d.files && 0 <= i < k && i < |order| && key.lineage == order[i] ::
      key == kept || Stray(d, key)
  }

  lemma {:induction false} BudgetedBound(d: Disk, order: seq<string>, k: nat, total: int, budget: int, current: string, keepSeq: nat, slack: nat)
    requires Sound(d) && DistinctNames(order) && (forall key | key in d.files :: key.lineage in order) && k <= |order|
    requires keepSeq == |IndexOf(d, current).rows| - 1
    requires Total(d.files) <= total + slack && Drained(d, order, k, Key(current, keepSeq))
    ensures var e := Budgeted(d, order, k, total, budget, current, keepSeq);
      Total(e.files) <= MaxInt(budget + slack + AllPhantoms(order, k, d), IndexOf(d, current).rows[keepSeq].bytes + Total(Strays(d)))
    decreases |order| - k
  {
    if total > budget {
      if k == |order| {
        DrainedTotal(d, order, current, keepSeq);
      } else {
        LineageBudgeted(d, order, k, total, budget, current, keepSeq, slack);
      }
    }
  }

  lemma DrainedTotal(d: Disk, order: seq<string>, current: string, keepSeq: nat)
    requires Sound(d) && (forall key | key in d.files :: key.lineage in order) && keepSeq == |IndexOf(d, current).rows| - 1
    requires Drained(d, order, |order|, Key(current, keepSeq))
    ensures Total(d.files) <= IndexOf(d, current).rows[keepSeq].bytes + Total(Strays(d))
  {
    var kept := Key(current, keepSeq);
    assert RowOk(IndexOf(d, current).rows[keepSeq], keepSeq);
    forall key | key in d.files && key != kept ensures key in Strays(d) && Strays(d)[key] == d.files[key] {
      var i :| 0 <= i < |order| && order[i] == key.lineage;
    }
    if kept in d.files && !Stray(d, kept) {
      assert FileOk(d, kept);
      TotalGone(d.files, kept);
      TotalAtMost(d.files - {kept}, Strays(d));
    } else {
      TotalAtMost(d.files, Strays(d));
    }
  }

  lemma HoldsRows(d: Disk, lineage: string)
    requires Sound(d)
    ensures Holding(d.files, lineage, IndexOf(d, lineage).rows) && Sequenced(IndexOf(d, lineage).rows)
    ensures Purged(d.files, lineage, IndexOf(d, lineage).rows) == d.files
  {
    var rows := IndexOf(d, lineage).rows;
    forall i | 0 <= i < |rows| ensures RowOk(rows[i], i) {
    }
    forall i | 0 <= i < |rows| && Key(lineage, i) in d.files && !rows[i].blank
      ensures Live(rows[i]) && rows[i].bytes == d.files[Key(lineage, i)].packed
    {
      assert FileOk(d, Key(lineage, i));
    }
  }

  lemma {:induction false} LineageBudgeted(d: Disk, order: seq<string>, k: nat, total: int, budget: int, current: string, keepSeq: nat, slack: nat)
    requires Sound(d) && DistinctNames(order) && (forall key | key in d.files :: key.lineage in order) && k < |order| && total > budget
    requires keepSeq == |IndexOf(d, current).rows| - 1
    requires Total(d.files) <= total + slack && Drained(d, order, k, Key(current, keepSeq))
    ensures var e := Budgeted(d, order, k, total, budget, current, keepSeq);
      Total(e.files) <= MaxInt(budget + slack + AllPhantoms(order, k, d), IndexOf(d, current).rows[keepSeq].bytes + Total(Strays(d)))
    decreases |order| - k, 0
  {
    hide Sound, Budgeted, BySize, Drained, Total;
    var lineage := order[k];
    var rows := IndexOf(d, lineage).rows;
    var spared := Kept(lineage, current, keepSeq);
    var trim := BySize(rows, 0, total, budget, spared);
    var later := WithRows(d, lineage, trim.rows);
    var ghosts := Phantoms(lineage, rows, 0, d.files);
    HoldsRows(d, lineage);
    BySizeFrees(d.files, lineage, rows, 0, total, budget, spared);
    BySizeKeeps(rows, rows, 0, total, budget, spared);
    WithRowsSound(d, lineage, trim.rows);
    BudgetedStep(d, order, k, total, budget, current, keepSeq);
    AllPhantomsSame(order, k + 1, d, later);
    if trim.size > budget {
      LineageDrained(d, order, k, current, keepSeq, trim.rows);
      BudgetedBound(later, order, k + 1, trim.size, budget, current, keepSeq, slack + ghosts);
    }
  }

  lemma BudgetedStep(d: Disk, order: seq<string>, k: nat, total: int, budget: int, current: string, keepSeq: nat)
    requires k < |order| && total > budget
    ensures var trim := BySize(IndexOf(d, order[k]).rows, 0, total, budget, Kept(order[k], current, keepSeq));
      var later := WithRows(d, order[k], trim.rows);
      Budgeted(d, order, k, total, budget, current, keepSeq) ==
        if trim.size <= budget then later else Budgeted(later, order, k + 1, trim.size, budget, current, keepSeq)
  {
  }

  lemma LineageDrained(d: Disk, order: seq<string>, k: nat, current: string, keepSeq: nat, rows: seq<Row>)
    requires Sound(d) && DistinctNames(order) && k < |order| && Drained(d, order, k, Key(current, keepSeq))
    requires Continues(IndexOf(d, order[k]).rows, rows) && |rows| == |IndexOf(d, order[k]).rows|
    requires forall i | 0 <= i < |rows| && Live(rows[i]) && rows[i].bytes > 0 :: Some(i) == Kept(order[k], current, keepSeq)
    ensures Drained(WithRows(d, order[k], rows), order, k + 1, Key(current, keepSeq))
  {
    var later := WithRows(d, order[k], rows);
    WithRowsSound(d, order[k], rows);
    forall key, i | key in later.files && 0 <= i < k + 1 && key.lineage == order[i]
      ensures key == Key(current, keepSeq) || Stray(later, key)
    {
      if i == k && key.sq < |rows| && !rows[key.sq].blank {
        assert FileOk(d, key) && RowOk(IndexOf(d, order[k]).rows[key.sq], key.sq);
        assert Live(rows[key.sq]) && rows[key.sq].bytes > 0;
      }
    }
  }

  // ── a whole add ──

  /** An order to take the lineages in: each once, every one that has files. */
  ghost predicate Ordered(d: Disk, order: seq<string>, lineage: string) {
    DistinctNames(order) && lineage in order && forall key | key in d.files :: key.lineage in order
  }

  lemma IndexedSound(d: Disk, settings: Settings, lineage: string, rev: int, base: Option<int>, content: Option<Bytes>)
    requires Sound(d) && (content.Some? ==> content.value.packed > 0)
    ensures var e, n := Indexed(d, settings, lineage, rev, base, content), |IndexOf(d, lineage).rows|;
      && Sound(e) && Keeps(d, e)
      && |IndexOf(e, lineage).rows| == n + 1 && IndexOf(e, lineage).rows[n] == NewRow(d, lineage, rev, base, content)
      && OldestFirst(IndexOf(d, lineage).rows + [NewRow(d, lineage, rev, base, content)], IndexOf(e, lineage).rows, Some(n))
      && Count(IndexOf(e, lineage).rows, 0) <= MaxInt(1, settings.keep)
      && (content.Some? ==> Key(lineage, n) in e.files && e.files[Key(lineage, n)] == content.value)
  {
    var e, n := Indexed(d, settings, lineage, rev, base, content), |IndexOf(d, lineage).rows|;
    var rows := IndexOf(d, lineage).rows + [NewRow(d, lineage, rev, base, content)];
    forall i | 0 <= i < n + 1 ensures RowOk(rows[i], i) {
      assert i < n ==> RowOk(IndexOf(d, lineage).rows[i], i);
    }
    LineageKept(rows, settings, n);
    var kept := IndexOf(e, lineage).rows;
    forall i | 0 <= i < n + 1 ensures RowOk(kept[i], i) {
      assert RowOk(rows[i], i) && kept[i].(evicted := rows[i].evicted) == rows[i];
    }
    forall key | key in e.files ensures FileOk(e, key) {
      if key != Key(lineage, n) {
        assert FileOk(d, key);
        assert key.lineage == lineage && key.sq < n ==> kept[key.sq].(evicted := rows[key.sq].evicted) == rows[key.sq] == IndexOf(d, lineage).rows[key.sq];
      }
    }
    forall other ensures Continues(IndexOf(d, other).rows, IndexOf(e, other).rows) {
      if other == lineage {
        forall i | 0 <= i < n ensures kept[i].(evicted := IndexOf(d, lineage).rows[i].evicted) == IndexOf(d, lineage).rows[i] {
          assert rows[i] == IndexOf(d, lineage).rows[i];
        }
      }
    }
  }

  lemma {:induction false} BudgetedKeeps(
    d: Disk, order: seq<string>, k: nat, total: int, budget: int, current: string, keepSeq: nat, lineage: string, first: seq<Row>)
    requires Sound(d) && DistinctNames(order) && keepSeq == |IndexOf(d, current).rows| - 1
    requires OldestFirst(first, IndexOf(d, lineage).rows, Kept(lineage, current, keepSeq))
    ensures var e := Budgeted(d, order, k, total, budget, current, keepSeq);
      && Sound(e) && Keeps(d, e) && Strays(e) == Strays(d)
      && OldestFirst(first, IndexOf(e, lineage).rows, Kept(lineage, current, keepSeq))
      && |IndexOf(e, current).rows| == |IndexOf(d, current).rows|
      && IndexOf(e, current).rows[keepSeq] == IndexOf(d, current).rows[keepSeq]
      && (Live(IndexOf(d, current).rows[keepSeq]) && Key(current, keepSeq) in d.files ==>
            Key(current, keepSeq) in e.files && e.files[Key(current, keepSeq)] == d.files[Key(current, keepSeq)])
    decreases |order| - k
  {
    hide Sound, OldestFirst;
    if total > budget && k < |order| {
      var rows := IndexOf(d, order[k]).rows;
      var spared := Kept(order[k], current, keepSeq);
      var trim := BySize(rows, 0, total, budget, spared);
      var later := WithRows(d, order[k], trim.rows);
      HoldsRows(d, order[k]);
      SelfOldest(rows, spared);
      BySizeKeeps(rows, rows, 0, total, budget, spared);
      SparedStays(rows, trim.rows, spared);
      if order[k] == lineage {
        BySizeKeeps(first, rows, 0, total, budget, spared);
      }
      WithRowsSound(d, order[k], trim.rows);
      BudgetedKeeps(later, order, k + 1, trim.size, budget, current, keepSeq, lineage, first);
      KeepsOn(d, later, Budgeted(later, order, k + 1, trim.size, budget, current, keepSeq));
    }
  }

  lemma SelfOldest(rows: seq<Row>, keepSeq: Option<nat>)
    ensures OldestFirst(rows, rows, keepSeq)
  {
  }

  lemma SparedStays(rows: seq<Row>, kept: seq<Row>, keepSeq: Option<nat>)
    requires OldestFirst(rows, kept, keepSeq)
    ensures |kept| == |rows| && (keepSeq.Some? && keepSeq.value < |rows| ==> kept[keepSeq.value] == rows[keepSeq.value])
  {
  }

  lemma CountKept(rows: seq<Row>, kept: seq<Row>, keepSeq: Option<nat>)
    requires OldestFirst(rows, kept, keepSeq)
    ensures Count(kept, 0) <= Count(rows, 0)
  {
    CountContinues(rows, kept, 0);
  }

  /** A completed `add`: the new row is live and reads as what was added; at most `max(1, keep)` rows
      besides S0 are live, and they are within the lineage's cap or the new one is all that has bytes;
      in every lineage only older rows than those that stay were evicted. */
  lemma AddKeepsTheNewest(
    d: Disk, settings: Settings, order: seq<string>, lineage: string, rev: int, base: Option<int>, content: Option<Bytes>, other: string)
    requires Sound(d) && Ordered(d, order, lineage) && (content.Some? ==> content.value.packed > 0)
    ensures var e, n := Added(d, settings, order, lineage, rev, base, content), |IndexOf(d, lineage).rows|;
      var rows := IndexOf(e, lineage).rows;
      && |rows| == n + 1 && Live(rows[n]) && rows[n].rev == rev
      && (if base.None? then rows[n].base == rev else rows[n].base <= rev && rows[n].base <= base.value && rows[n].base in {rev, base.value})
      && Read(e, lineage, rows[n]) == (if content.Some? then Drawing(content.value) else BlankDrawing)
      && Count(rows, 0) <= MaxInt(1, settings.keep)
      && (SizeOf(rows, 0) <= settings.maxDoc || forall i | 0 <= i < |rows| && Live(rows[i]) && rows[i].bytes > 0 :: i == n)
      && OldestFirst(IndexOf(d, lineage).rows + [rows[n]], rows, Some(n))
      && (other != lineage ==> OldestFirst(IndexOf(d, other).rows, IndexOf(e, other).rows, None))
  {
    var indexed, n := Indexed(d, settings, lineage, rev, base, content), |IndexOf(d, lineage).rows|;
    hide OldestFirst, Sound, Budgeted, Indexed, LineageTrimmed;
    IndexedSound(d, settings, lineage, rev, base, content);
    var first := IndexOf(d, lineage).rows + [NewRow(d, lineage, rev, base, content)];
    BudgetedKeeps(indexed, order, 0, Total(indexed.files), settings.budget, lineage, n, lineage, first);
    SelfOldest(IndexOf(indexed, lineage).rows, Some(n));
    BudgetedKeeps(indexed, order, 0, Total(indexed.files), settings.budget, lineage, n, lineage, IndexOf(indexed, lineage).rows);
    var e := Added(d, settings, order, lineage, rev, base, content);
    CountKept(IndexOf(indexed, lineage).rows, IndexOf(e, lineage).rows, Some(n));
    IndexedRows(d, settings, lineage, rev, base, content);
    LineageCapped(first, settings);
    CappedStays(IndexOf(indexed, lineage).rows, IndexOf(e, lineage).rows, Some(n), settings.maxDoc);
    if other != lineage {
      OthersIndexed(d, settings, lineage, rev, base, content, other);
      SelfOldest(IndexOf(d, other).rows, None);
      BudgetedKeeps(indexed, order, 0, Total(indexed.files), settings.budget, lineage, n, other, IndexOf(d, other).rows);
    }
  }

  /** The lineage's newest row is this one, live, and reads as `content`; and the lineage is within its cap on
      rows, and within its cap on bytes unless only this row has any. */
  ghost predicate Settled(d: Disk, settings: Settings, lineage: string, row: Row, content: Option<Bytes>) {
    var rows := IndexOf(d, lineage).rows;
    && rows != [] && rows[|rows| - 1] == row && row.sq == |rows| - 1 && Live(row)
    && Read(d, lineage, row) == (if content.Some? then Drawing(content.value) else BlankDrawing)
    && Count(rows, 0) <= MaxInt(1, settings.keep)
    && (SizeOf(rows, 0) <= settings.maxDoc || forall i | 0 <= i < |rows| && Live(rows[i]) && rows[i].bytes > 0 :: i == row.sq)
  }

  lemma AddSettles(
    d: Disk, settings: Settings, order: seq<string>, lineage: string, rev: int, base: Option<int>, content: Option<Bytes>)
    requires Sound(d) && Ordered(d, order, lineage) && (content.Some? ==> content.value.packed > 0)
    ensures Settled(Added(d, settings, order, lineage, rev, base, content), settings, lineage, NewRow(d, lineage, rev, base, content), content)
  {
    var indexed, n := Indexed(d, settings, lineage, rev, base, content), |IndexOf(d, lineage).rows|;
    hide OldestFirst, Sound, Budgeted, Indexed, Count, SizeOf;
    IndexedSound(d, settings, lineage, rev, base, content);
    SelfOldest(IndexOf(indexed, lineage).rows, Some(n));
    BudgetedKeeps(indexed, order, 0, Total(indexed.files), settings.budget, lineage, n, lineage, IndexOf(indexed, lineage).rows);
    AddKeepsTheNewest(d, settings, order, lineage, rev, base, content, lineage);
  }

  lemma IndexedRows(d: Disk, settings: Settings, lineage: string, rev: int, base: Option<int>, content: Option<Bytes>)
    requires Sound(d)
    ensures var first := IndexOf(d, lineage).rows + [NewRow(d, lineage, rev, base, content)];
      && IndexOf(Indexed(d, settings, lineage, rev, base, content), lineage).rows == LineageTrimmed(first, settings, |first| - 1)
      && Sequenced(first)
  {
    hide LineageTrimmed;
    HoldsRows(d, lineage);
  }

  /** And exactly which rows an `add` evicts, its own never: in its lineage those beyond the newest so many
      and beyond the newest so many bytes of these; and of what is then on disk, in every lineage, those
      without which, and without all older, the files are still over the budget. */
  lemma AddEvictsIff(
    d: Disk, settings: Settings, order: seq<string>, lineage: string, rev: int, base: Option<int>, content: Option<Bytes>, j: nat, i: nat)
    requires Sound(d) && Ordered(d, order, lineage) && (content.Some? ==> content.value.packed > 0)
    requires j < |order| && i < |IndexOf(d, order[j]).rows| + if order[j] == lineage then 1 else 0
    ensures var indexed, n := Indexed(d, settings, lineage, rev, base, content), |IndexOf(d, lineage).rows|;
      var first := IndexOf(d, order[j]).rows + if order[j] == lineage then [NewRow(d, lineage, rev, base, content)] else [];
      var rows := IndexOf(Added(d, settings, order, lineage, rev, base, content), order[j]).rows;
      var most := MaxInt(1, settings.keep);
      && |rows| == |first| == |IndexOf(indexed, order[j]).rows|
      && rows[i] == if || (order[j] == lineage && (CountedOut(first, i, most) || SizedOut(first, i, most, settings.maxDoc)))
                       || Overspent(indexed, order, 0, j, i, Total(indexed.files), settings.budget, lineage, n)
                    then Evicted(first[i]) else first[i]
  {
    var indexed, n := Indexed(d, settings, lineage, rev, base, content), |IndexOf(d, lineage).rows|;
    hide OldestFirst, Sound, Budgeted, Indexed, LineageTrimmed, CountedOut, SizedOut, Overspent;
    IndexedSound(d, settings, lineage, rev, base, content);
    BudgetEvictsIff(indexed, order, 0, Total(indexed.files), settings.budget, lineage, n, j, i);
    if order[j] == lineage {
      IndexedRows(d, settings, lineage, rev, base, content);
      LineageEvictsIff(IndexOf(d, lineage).rows + [NewRow(d, lineage, rev, base, content)], settings);
    } else {
      OthersIndexed(d, settings, lineage, rev, base, content, order[j]);
    }
  }

  /** So no row of its lineage goes but for one of the three caps. */
  lemma AddEvictsOnlyOver(
    d: Disk, settings: Settings, order: seq<string>, lineage: string, rev: int, base: Option<int>, content: Option<Bytes>, i: nat)
    requires Sound(d) && Ordered(d, order, lineage) && (content.Some? ==> content.value.packed > 0)
    requires i < |IndexOf(d, lineage).rows| && Live(IndexOf(d, lineage).rows[i])
    requires var rows := IndexOf(Added(d, settings, order, lineage, rev, base, content), lineage).rows; i < |rows| && !Live(rows[i])
    ensures var first := IndexOf(d, lineage).rows + [NewRow(d, lineage, rev, base, content)];
      || (i != 0 && Count(first, 0) > MaxInt(1, settings.keep))
      || SizeOf(first, 0) > settings.maxDoc
      || Total(Indexed(d, settings, lineage, rev, base, content).files) > settings.budget
  {
    var indexed, n := Indexed(d, settings, lineage, rev, base, content), |IndexOf(d, lineage).rows|;
    var first := IndexOf(d, lineage).rows + [NewRow(d, lineage, rev, base, content)];
    hide Sound, Budgeted, Indexed, LineageTrimmed, Older, Count, SizeOf, SizeWithin;
    var j :| 0 <= j < |order| && order[j] == lineage;
    AddEvictsIff(d, settings, order, lineage, rev, base, content, j, i);
    CountFalls(first, 0, i);
    WithinSize(first, i, MaxInt(1, settings.keep));
    SizeFalls(first, 0, i);
    SizeFalls(IndexOf(indexed, lineage).rows, 0, i);
  }

  lemma {:induction false} WithinSize(rows: seq<Row>, k: nat, most: int)
    ensures SizeWithin(rows, k, most) <= SizeOf(rows, k)
    decreases |rows| - k
  {
    if k < |rows| {
      WithinSize(rows, k + 1, most);
    }
  }

  lemma {:induction false} BudgetedFiles(d: Disk, order: seq<string>, k: nat, total: int, budget: int, current: string, keepSeq: nat, key: Key)
    requires Sound(d) && DistinctNames(order) && keepSeq == |IndexOf(d, current).rows| - 1 && key in d.files
    ensures var e := Budgeted(d, order, k, total, budget, current, keepSeq);
      if key in e.files then e.files[key] == d.files[key] else Forgone(e, key)
    decreases |order| - k
  {
    hide Sound, BySize, OldestFirst, Keeps, Budgeted;
    if total > budget && k < |order| {
      var rows := IndexOf(d, order[k]).rows;
      var spared := Kept(order[k], current, keepSeq);
      var trim := BySize(rows, 0, total, budget, spared);
      var later := WithRows(d, order[k], trim.rows);
      BudgetedStep(d, order, k, total, budget, current, keepSeq);
      HoldsRows(d, order[k]);
      SelfOldest(rows, spared);
      BySizeKeeps(rows, rows, 0, total, budget, spared);
      SparedLength(rows, trim.rows, spared);
      WithRowsSound(d, order[k], trim.rows);
      if key in later.files {
        if trim.size > budget {
          BudgetedFiles(later, order, k + 1, trim.size, budget, current, keepSeq, key);
        }
      } else {
        SelfOldest(IndexOf(later, key.lineage).rows, Kept(key.lineage, current, keepSeq));
        BudgetedKeeps(later, order, k + 1, trim.size, budget, current, keepSeq, key.lineage, IndexOf(later, key.lineage).rows);
        ForgoneStays(later, Budgeted(later, order, k + 1, trim.size, budget, current, keepSeq), key);
      }
    } else {
      if total <= budget {
        BudgetIdle(d, order, k, total, budget, current, keepSeq);
      } else {
        BudgetDone(d, order, k, total, budget, current, keepSeq);
      }
    }
  }

  lemma BudgetDone(d: Disk, order: seq<string>, k: nat, total: int, budget: int, current: string, keepSeq: nat)
    requires k >= |order|
    ensures Budgeted(d, order, k, total, budget, current, keepSeq) == d
  {
  }

  /** The drawing's row was evicted. */
  predicate Forgone(d: Disk, key: Key) {
    var rows := IndexOf(d, key.lineage).rows;
    key.sq < |rows| && rows[key.sq].evicted && !rows[key.sq].blank
  }

  lemma ForgoneStays(d: Disk, later: Disk, key: Key)
    requires Keeps(d, later) && Forgone(d, key)
    ensures Forgone(later, key)
  {
    var rows, after := IndexOf(d, key.lineage).rows, IndexOf(later, key.lineage).rows;
    assert Continues(rows, after);
    assert after[key.sq].(evicted := rows[key.sq].evicted) == rows[key.sq];
  }

  /** And an `add` leaves every file that was there, and its own, but those of rows it leaves evicted. */
  lemma AddedFiles(
    d: Disk, settings: Settings, order: seq<string>, lineage: string, rev: int, base: Option<int>, content: Option<Bytes>, key: Key)
    requires Sound(d) && Ordered(d, order, lineage) && (content.Some? ==> content.value.packed > 0)
    ensures var e := Added(d, settings, order, lineage, rev, base, content);
      var files := if content.Some? then d.files[Key(lineage, |IndexOf(d, lineage).rows|) := content.value] else d.files;
      && (key in e.files <==> key in files && !Forgone(e, key))
      && (key in e.files ==> e.files[key] == files[key])
  {
    var indexed, n := Indexed(d, settings, lineage, rev, base, content), |IndexOf(d, lineage).rows|;
    hide OldestFirst, Budgeted, LineageTrimmed, Count, Forgone;
    var e := Added(d, settings, order, lineage, rev, base, content);
    var files := if content.Some? then d.files[Key(lineage, n) := content.value] else d.files;
    IndexedSound(d, settings, lineage, rev, base, content);
    SelfOldest(IndexOf(indexed, key.lineage).rows, Kept(key.lineage, lineage, n));
    BudgetedKeeps(indexed, order, 0, Total(indexed.files), settings.budget, lineage, n, key.lineage, IndexOf(indexed, key.lineage).rows);
    if key in e.files {
      SoundForgoes(e, key);
      if key !in indexed.files {
        BudgetedNoMore(indexed, order, 0, Total(indexed.files), settings.budget, lineage, n, key);
      }
    }
    if key in indexed.files {
      BudgetedFiles(indexed, order, 0, Total(indexed.files), settings.budget, lineage, n, key);
    } else if key in files {
      assert Forgone(indexed, key) by { PurgedForgone(d, settings, lineage, rev, base, content, key); }
      ForgoneStays(indexed, e, key);
    }
  }

  lemma PurgedForgone(d: Disk, settings: Settings, lineage: string, rev: int, base: Option<int>, content: Option<Bytes>, key: Key)
    requires key in (if content.Some? then d.files[Key(lineage, |IndexOf(d, lineage).rows|) := content.value] else d.files)
    requires key !in Indexed(d, settings, lineage, rev, base, content).files
    ensures Forgone(Indexed(d, settings, lineage, rev, base, content), key)
  {
    hide LineageTrimmed;
  }

  lemma SoundForgoes(d: Disk, key: Key)
    requires Sound(d) && key in d.files
    ensures !Forgone(d, key)
  {
    assert FileOk(d, key);
  }

  lemma {:induction false} BudgetedNoMore(d: Disk, order: seq<string>, k: nat, total: int, budget: int, current: string, keepSeq: nat, key: Key)
    requires key !in d.files
    ensures key !in Budgeted(d, order, k, total, budget, current, keepSeq).files
    decreases |order| - k
  {
    hide BySize;
    if total > budget && k < |order| {
      var trim := BySize(IndexOf(d, order[k]).rows, 0, total, budget, Kept(order[k], current, keepSeq));
      BudgetedNoMore(WithRows(d, order[k], trim.rows), order, k + 1, trim.size, budget, current, keepSeq, key);
    }
  }

  lemma OthersIndexed(d: Disk, settings: Settings, lineage: string, rev: int, base: Option<int>, content: Option<Bytes>, other: string)
    requires other != lineage
    ensures IndexOf(Indexed(d, settings, lineage, rev, base, content), other) == IndexOf(d, other)
  {
  }

  /** No live row has lost its file, and no file lacks its row but one an `add` of content to `lineage`
      would write over. */
  ghost predicate Whole(d: Disk, lineage: string, content: Option<Bytes>) {
    && (forall other, i | other in d.indexes && 0 <= i < |d.indexes[other].rows| :: HasFile(d, other, d.indexes[other].rows[i]))
    && (forall key | key in d.files && Stray(d, key) :: content.Some? && key == Key(lineage, |IndexOf(d, lineage).rows|))
  }

  predicate HasFile(d: Disk, lineage: string, row: Row) {
    Live(row) && !row.blank ==> Key(lineage, row.sq) in d.files
  }

  lemma {:induction false} NoPhantoms(lineage: string, rows: seq<Row>, k: nat, files: map<Key, Bytes>)
    requires forall i | k <= i < |rows| && Live(rows[i]) :: rows[i].bytes == 0 || Key(lineage, rows[i].sq) in files
    ensures Phantoms(lineage, rows, k, files) == 0
    decreases |rows| - k
  {
    if k < |rows| {
      NoPhantoms(lineage, rows, k + 1, files);
    }
  }

  lemma {:induction false} WholeHasNoPhantoms(d: Disk, order: seq<string>, k: nat, lineage: string, content: Option<Bytes>)
    requires Sound(d) && Whole(d, lineage, content)
    ensures AllPhantoms(order, k, d) == 0
    decreases |order| - k
  {
    if k < |order| {
      var rows := IndexOf(d, order[k]).rows;
      forall i | 0 <= i < |rows| && Live(rows[i]) ensures rows[i].bytes == 0 || Key(order[k], rows[i].sq) in d.files {
        assert RowOk(rows[i], i) && HasFile(d, order[k], rows[i]);
      }
      NoPhantoms(order[k], rows, 0, d.files);
      WholeHasNoPhantoms(d, order, k + 1, lineage, content);
    }
  }

  /** The bytes after a completed `add`: at most the budget and the bytes of phantom rows, or the new
      row's and the stray files'. */
  lemma AddedBytes(
    d: Disk, settings: Settings, order: seq<string>, lineage: string, rev: int, base: Option<int>, content: Option<Bytes>)
    requires Sound(d) && Ordered(d, order, lineage) && (content.Some? ==> content.value.packed > 0)
    ensures var indexed, e := Indexed(d, settings, lineage, rev, base, content), Added(d, settings, order, lineage, rev, base, content);
      Total(e.files) <= MaxInt(settings.budget + AllPhantoms(order, 0, indexed),
                               (if content.Some? then content.value.packed else 0) + Total(Strays(indexed)))
  {
    hide Indexed, Budgeted, OldestFirst, Continues;
    var indexed, n := Indexed(d, settings, lineage, rev, base, content), |IndexOf(d, lineage).rows|;
    IndexedSound(d, settings, lineage, rev, base, content);
    IndexedOrdered(d, settings, order, lineage, rev, base, content);
    NothingDrained(indexed, order, Key(lineage, n));
    BudgetedBound(indexed, order, 0, Total(indexed.files), settings.budget, lineage, n, 0);
  }

  lemma NothingDrained(d: Disk, order: seq<string>, kept: Key)
    ensures Drained(d, order, 0, kept)
  {
  }

  lemma IndexedOrdered(d: Disk, settings: Settings, order: seq<string>, lineage: string, rev: int, base: Option<int>, content: Option<Bytes>)
    requires Ordered(d, order, lineage)
    ensures Ordered(Indexed(d, settings, lineage, rev, base, content), order, lineage)
  {
    hide LineageTrimmed;
  }

  lemma IndexedWhole(d: Disk, settings: Settings, lineage: string, rev: int, base: Option<int>, content: Option<Bytes>)
    requires Sound(d) && Whole(d, lineage, content) && (content.Some? ==> content.value.packed > 0)
    ensures var e := Indexed(d, settings, lineage, rev, base, content); Whole(e, lineage, None) && Strays(e) == map[]
  {
    hide Indexed, Stray, HasFile, Sound;
    IndexedHasFiles(d, settings, lineage, rev, base, content);
    forall key | key in Indexed(d, settings, lineage, rev, base, content).files
      ensures !Stray(Indexed(d, settings, lineage, rev, base, content), key)
    {
      IndexedStray(d, settings, lineage, rev, base, content, key);
    }
  }

  lemma IndexedStray(d: Disk, settings: Settings, lineage: string, rev: int, base: Option<int>, content: Option<Bytes>, key: Key)
    requires Sound(d) && (content.Some? ==> content.value.packed > 0)
    requires forall key | key in d.files && Stray(d, key) :: content.Some? && key == Key(lineage, |IndexOf(d, lineage).rows|)
    requires key in Indexed(d, settings, lineage, rev, base, content).files
    ensures !Stray(Indexed(d, settings, lineage, rev, base, content), key)
  {
    IndexedSound(d, settings, lineage, rev, base, content);
    hide Sound, OldestFirst, LineageTrimmed, Count;
    var e, n := Indexed(d, settings, lineage, rev, base, content), |IndexOf(d, lineage).rows|;
    if key != Key(lineage, n) {
      assert !Stray(d, key);
      if key.lineage == lineage {
        assert Continues(IndexOf(d, lineage).rows, IndexOf(e, lineage).rows);
        assert IndexOf(e, lineage).rows[key.sq].(evicted := IndexOf(d, lineage).rows[key.sq].evicted) == IndexOf(d, lineage).rows[key.sq];
      }
    }
  }

  lemma IndexedHasFiles(d: Disk, settings: Settings, lineage: string, rev: int, base: Option<int>, content: Option<Bytes>)
    requires Sound(d) && Whole(d, lineage, content) && (content.Some? ==> content.value.packed > 0)
    ensures var e := Indexed(d, settings, lineage, rev, base, content);
      forall other, i | other in e.indexes && 0 <= i < |e.indexes[other].rows| :: HasFile(e, other, e.indexes[other].rows[i])
  {
    var e, n := Indexed(d, settings, lineage, rev, base, content), |IndexOf(d, lineage).rows|;
    IndexedSound(d, settings, lineage, rev, base, content);
    hide OldestFirst, LineageTrimmed, ByCount, Sound, Stray;
    var kept := IndexOf(e, lineage).rows;
    assert Continues(IndexOf(d, lineage).rows, kept);
    forall other, i | other in e.indexes && 0 <= i < |e.indexes[other].rows| ensures HasFile(e, other, e.indexes[other].rows[i]) {
      if other != lineage {
        assert HasFile(d, other, d.indexes[other].rows[i]);
      } else if i < n {
        RowAt(d, lineage, i);
        assert lineage in d.indexes && HasFile(d, lineage, d.indexes[lineage].rows[i]);
      }
    }
  }

  lemma RowAt(d: Disk, lineage: string, i: nat)
    requires Sound(d) && i < |IndexOf(d, lineage).rows|
    ensures RowOk(IndexOf(d, lineage).rows[i], i)
  {
  }

  /** So from a disk no kill left torn a completed `add` ends within the budget or with the new
      checkpoint alone. */
  lemma AddStaysInBudget(
    d: Disk, settings: Settings, order: seq<string>, lineage: string, rev: int, base: Option<int>, content: Option<Bytes>)
    requires Sound(d) && Whole(d, lineage, content) && Ordered(d, order, lineage) && (content.Some? ==> content.value.packed > 0)
    ensures var e := Added(d, settings, order, lineage, rev, base, content);
      Total(e.files) <= MaxInt(settings.budget, if content.Some? then content.value.packed else 0)
  {
    var indexed := Indexed(d, settings, lineage, rev, base, content);
    IndexedSound(d, settings, lineage, rev, base, content);
    IndexedWhole(d, settings, lineage, rev, base, content);
    AddedBytes(d, settings, order, lineage, rev, base, content);
    WholeHasNoPhantoms(indexed, order, 0, lineage, None);
  }
}
