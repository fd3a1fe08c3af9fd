/** `CheckpointStore` of backends/checkpoints.py. `trace` is the disk found and every disk after it, write
    by write: `CheckpointWrites` says which they are. */
module CheckpointStores {

  import opened Wrappers
  import opened Checkpoints
  import opened CheckpointWrites

  class CheckpointStore {
    const settings: Settings
    var indexes: map<string, Index>
    var files: map<Key, Bytes>
    ghost var trace: seq<Disk>

    function Now(): Disk
      reads this
    {
      Disk(indexes, files)
    }

    ghost predicate Valid()
      reads this
    {
      trace != [] && trace[|trace| - 1] == Now()
    }

    /** A process that finds `disk`, as a kill left it. */
    constructor (settings: Settings, disk: Disk)
      ensures Valid() && this.settings == settings && Now() == disk && trace == [disk]
    {
      this.settings, indexes, files, trace := settings, disk.indexes, disk.files, [disk];
    }

    method WriteFile(key: Key, bytes: Bytes)
      requires Valid()
      modifies this
      ensures Valid() && Now() == old(Now()).(files := old(files)[key := bytes]) && trace == old(trace) + [Now()]
    {
      files := files[key := bytes];
      trace := trace + [Now()];
    }

    method Unlink(key: Key)
      requires Valid()
      modifies this
      ensures Valid() && Now() == old(Now()).(files := old(files) - {key}) && trace == old(trace) + [Now()]
    {
      files := files - {key};
      trace := trace + [Now()];
    }

    /** `_write_json`: the scratch file moved over the index. */
    method WriteIndex(lineage: string, index: Index)
      requires Valid()
      modifies this
      ensures Valid() && Now() == old(Now()).(indexes := old(indexes)[lineage := index]) && trace == old(trace) + [Now()]
    {
      indexes := indexes[lineage := index];
      trace := trace + [Now()];
    }

    /** `_evict_row`: the file gone, then the row marked in the index read. */
    method EvictRow(lineage: string, rows: seq<Row>, k: nat, ghost start: map<Key, Bytes>) returns (next: seq<Row>)
      requires Valid() && k < |rows| && Live(rows[k]) && rows[k].sq == k && files == Purged(start, lineage, rows)
      modifies this
      ensures Valid() && indexes == old(indexes)
      ensures next == rows[k := Evicted(rows[k])] && files == Purged(start, lineage, next)
      ensures Now() == (if rows[k].blank then old(Now()) else Unlinked(old(Now()), lineage, k))
      ensures trace == old(trace) + if rows[k].blank then [] else [Now()]
    {
      if !rows[k].blank {
        PurgedOne(start, lineage, rows, k);
        Unlink(Key(lineage, k));
      }
      next := rows[k := Evicted(rows[k])];
    }

    /** The oldest rows out, file by file, while there are too many. */
    method EvictByCount(lineage: string, given: seq<Row>, excess: int, keepSeq: nat) returns (rows: seq<Row>)
      requires Valid() && Sequenced(given) && Purged(files, lineage, given) == files
      modifies this
      ensures Valid() && indexes == old(indexes)
      ensures rows == ByCount(given, 0, excess, keepSeq) && Sequenced(rows) && files == Purged(old(files), lineage, rows)
      ensures trace == old(trace) + Unlinks(old(Now()), lineage, given, rows, 0)
    {
      hide Purged, Unlinks;
      rows := given;
      var left := excess;
      var k := 0;
      ghost var kept := ByCount(given, 0, excess, keepSeq);
      while k < |rows| && left > 0
        invariant Valid() && indexes == old(indexes)
        invariant |rows| == |given| && k <= |rows| && Sequenced(rows) && rows[k..] == given[k..]
        invariant files == Purged(old(files), lineage, rows)
        invariant ByCount(rows, k, left, keepSeq) == kept
        invariant trace + Unlinks(Now(), lineage, given, kept, k) == old(trace) + Unlinks(old(Now()), lineage, given, kept, 0)
      {
        assert rows[k] == given[k] && rows[k + 1..] == given[k + 1..];
        UnlinksStep(Now(), lineage, given, kept, k);
        if Live(rows[k]) && rows[k].sq != 0 && rows[k].sq != keepSeq {
          CountPrefix(rows[k := Evicted(rows[k])], k + 1, left - 1, keepSeq, k);
          rows := EvictRow(lineage, rows, k, old(files));
          left := left - 1;
        } else {
          CountPrefix(rows, k + 1, left, keepSeq, k);
        }
        k := k + 1;
      }
      RestStays(Now(), lineage, given, rows, k);
    }

    /** `_evict_lineage`, on the index as read: beyond the newest so many, then beyond the newest so many
        bytes of those. */
    method EvictLineage(lineage: string, given: seq<Row>, keepSeq: nat) returns (rows: seq<Row>)
      requires Valid() && Sequenced(given) && Purged(files, lineage, given) == files
      modifies this
      ensures Valid() && indexes == old(indexes)
      ensures rows == LineageTrimmed(given, settings, keepSeq) && files == Purged(old(files), lineage, rows)
      ensures keepSeq == |given| - 1 ==> TrimmedTo(given, rows, MaxInt(1, settings.keep), settings.maxDoc)
      ensures trace == old(trace) + LineageWrites(old(Now()), lineage, given, settings, keepSeq)
    {
      hide Purged, Unlinks, ByCount, BySize, TrimmedTo;
      var live := CountLive(given);
      rows := EvictByCount(lineage, given, live - MaxInt(1, settings.keep), keepSeq);
      var size := LiveSize(rows);
      var left;
      rows, left := EvictBySize(lineage, rows, size, settings.maxDoc, Some(keepSeq), old(files));
      if keepSeq == |given| - 1 {
        LineageEvictsIff(given, settings);
      }
    }

    method CountLive(rows: seq<Row>) returns (count: nat)
      ensures count == Count(rows, 0)
    {
      count := 0;
      for k := 0 to |rows|
        invariant count + Count(rows, k) == Count(rows, 0)
      {
        if Live(rows[k]) && rows[k].sq != 0 {
          count := count + 1;
        }
      }
    }

    method LiveSize(rows: seq<Row>) returns (size: nat)
      ensures size == SizeOf(rows, 0)
    {
      size := 0;
      for k := 0 to |rows|
        invariant size + SizeOf(rows, k) == SizeOf(rows, 0)
      {
        if Live(rows[k]) {
          size := size + rows[k].bytes;
        }
      }
    }

    /** The oldest rows with bytes out, file by file, while `size` is over `cap`. */
    method EvictBySize(lineage: string, given: seq<Row>, size: int, cap: int, keepSeq: Option<nat>, ghost start: map<Key, Bytes>)
      returns (rows: seq<Row>, left: int)
      requires Valid() && Sequenced(given) && files == Purged(start, lineage, given)
      modifies this
      ensures Valid() && indexes == old(indexes)
      ensures Trim(rows, left) == BySize(given, 0, size, cap, keepSeq) && files == Purged(start, lineage, rows)
      ensures trace == old(trace) + Unlinks(old(Now()), lineage, given, rows, 0)
    {
      hide Purged, Unlinks;
      rows, left := given, size;
      var k := 0;
      ghost var trim := BySize(given, 0, size, cap, keepSeq);
      while k < |rows| && left > cap
        invariant Valid() && indexes == old(indexes)
        invariant |rows| == |given| && k <= |rows| && Sequenced(rows) && rows[k..] == given[k..]
        invariant files == Purged(start, lineage, rows)
        invariant BySize(rows, k, left, cap, keepSeq) == trim
        invariant trace + Unlinks(Now(), lineage, given, trim.rows, k) == old(trace) + Unlinks(old(Now()), lineage, given, trim.rows, 0)
      {
        assert rows[k] == given[k] && rows[k + 1..] == given[k + 1..];
        UnlinksStep(Now(), lineage, given, trim.rows, k);
        if Live(rows[k]) && rows[k].bytes > 0 && Some(rows[k].sq) != keepSeq {
          SizePrefix(rows[k := Evicted(rows[k])], k + 1, left - rows[k].bytes, cap, keepSeq, k);
          left := left - rows[k].bytes;
          rows := EvictRow(lineage, rows, k, start);
        } else {
          SizePrefix(rows, k + 1, left, cap, keepSeq, k);
        }
        k := k + 1;
      }
      RestStays(Now(), lineage, given, rows, k);
    }

    method TotalBytes() returns (total: nat)
      ensures total == Total(files)
    {
      total := 0;
      var rest := files;
      while rest != map[]
        invariant total + Total(rest) == Total(files)
        decreases |rest|
      {
        var key :| key in rest;
        TotalWithout(rest, key);
        total := total + rest[key].packed;
        rest := rest - {key};
      }
    }

    /** `_evict_budget`: the counted bytes down to the budget, lineage by lineage. */
    method EvictBudget(current: string, keepSeq: nat, order: seq<string>)
      requires Valid() && Sound(Now()) && DistinctNames(order) && keepSeq == |IndexOf(Now(), current).rows| - 1
      modifies this
      ensures Valid() && Now() == Budgeted(old(Now()), order, 0, Total(old(files)), settings.budget, current, keepSeq)
      ensures trace == old(trace) + BudgetWrites(old(Now()), order, 0, Total(old(files)), settings.budget, current, keepSeq)
    {
      hide ShareWrites, BySize, Sound;
      var total: int := TotalBytes();
      var k := 0;
      while k < |order| && total > settings.budget
        invariant Valid() && Sound(Now()) && k <= |order| && keepSeq == |IndexOf(Now(), current).rows| - 1
        invariant Budgeted(Now(), order, k, total, settings.budget, current, keepSeq) ==
          Budgeted(old(Now()), order, 0, Total(old(files)), settings.budget, current, keepSeq)
        invariant trace + BudgetWrites(Now(), order, k, total, settings.budget, current, keepSeq) ==
          old(trace) + BudgetWrites(old(Now()), order, 0, Total(old(files)), settings.budget, current, keepSeq)
      {
        total := EvictFrom(order[k], total, Kept(order[k], current, keepSeq));
        k := k + 1;
      }
    }

    /** One lineage's share: its rows evicted in its index as read, then the index written if any was. */
    method EvictFrom(lineage: string, total: int, keepSeq: Option<nat>) returns (left: int)
      requires Valid() && Sound(Now()) && (keepSeq.Some? ==> keepSeq.value == |IndexOf(Now(), lineage).rows| - 1)
      modifies this
      ensures Valid() && Sound(Now())
      ensures var trim := BySize(IndexOf(old(Now()), lineage).rows, 0, total, settings.budget, keepSeq);
        && left == trim.size && Now() == WithRows(old(Now()), lineage, trim.rows)
        && trace == old(trace) + ShareWrites(old(Now()), lineage, trim.rows)
      ensures forall other :: |IndexOf(Now(), other).rows| == |IndexOf(old(Now()), other).rows|
    {
      hide Sound, Keeps, OldestFirst, Continues, Purged;
      var rows := IndexOf(Now(), lineage).rows;
      HoldsRows(Now(), lineage);
      SelfOldest(rows, keepSeq);
      BySizeKeeps(rows, rows, 0, total, settings.budget, keepSeq);
      var kept;
      kept, left := EvictBySize(lineage, rows, total, settings.budget, keepSeq, files);
      WithRowsSound(old(Now()), lineage, kept);
      if kept != rows {
        RewrittenKeeps(old(Now()), Now(), lineage, kept);
        WriteIndex(lineage, Index(|kept|, kept));
      }
    }

    /** `add`: the file, its row and the lineage's evictions in the index, then the budget. The new row is
        live and reads as what was added; the lineage is within its cap on rows, and within its cap on bytes
        unless only the new row has any. */
    method Add(lineage: string, rev: int, base: Option<int>, content: Option<Bytes>, order: seq<string>) returns (row: Row)
      requires Valid() && Sound(Now()) && Ordered(Now(), order, lineage) && (content.Some? ==> content.value.packed > 0)
      modifies this
      ensures Valid() && Sound(Now()) && row == NewRow(old(Now()), lineage, rev, base, content)
      ensures var call := Call(settings, order, lineage, rev, base, content);
        Now() == AfterAdd(old(Now()), call) && trace == old(trace) + AddWrites(old(Now()), call)
      ensures Settled(Now(), settings, lineage, row, content)
    {
      hide Settled, LineageWrites, BudgetWrites, Budgeted, Sound, LineageTrimmed, Total, Keeps, OldestFirst, TrimmedTo, Count, SizeOf, Safe;
      ghost var d, call := Now(), Call(settings, order, lineage, rev, base, content);
      AddSafe(d, call);
      LastIsSound(d, AddWrites(d, call));
      var index := IndexOf(Now(), lineage);
      row := NewRow(Now(), lineage, rev, base, content);
      IndexedSound(d, settings, lineage, rev, base, content);
      WrittenSafe(d, call);
      if content.Some? {
        WriteFile(Key(lineage, |index.rows|), content.value);
      }
      var rows := EvictLineage(lineage, index.rows + [row], |index.rows|);
      WriteIndex(lineage, Index(|index.rows| + 1, rows));
      EvictBudget(lineage, |index.rows|, order);
      AddSettles(d, settings, order, lineage, rev, base, content);
    }
  }

  lemma {:induction false} CountPrefix(rows: seq<Row>, k: nat, excess: int, keepSeq: nat, i: nat)
    requires i < k && i < |rows|
    ensures ByCount(rows, k, excess, keepSeq)[i] == rows[i]
    decreases |rows| - k
  {
    if k < |rows| && excess > 0 {
      if Live(rows[k]) && rows[k].sq != 0 && rows[k].sq != keepSeq {
        CountPrefix(rows[k := Evicted(rows[k])], k + 1, excess - 1, keepSeq, i);
      } else {
        CountPrefix(rows, k + 1, excess, keepSeq, i);
      }
    }
  }

  lemma {:induction false} SizePrefix(rows: seq<Row>, k: nat, size: int, cap: int, keepSeq: Option<nat>, i: nat)
    requires i < k && i < |rows|
    ensures BySize(rows, k, size, cap, keepSeq).rows[i] == rows[i]
    decreases |rows| - k
  {
    if k < |rows| && size > cap {
      if Live(rows[k]) && rows[k].bytes > 0 && Some(rows[k].sq) != keepSeq {
        SizePrefix(rows[k := Evicted(rows[k])], k + 1, size - rows[k].bytes, cap, keepSeq, i);
      } else {
        SizePrefix(rows, k + 1, size, cap, keepSeq, i);
      }
    }
  }
}
