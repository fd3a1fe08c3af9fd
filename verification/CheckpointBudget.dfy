/** When the byte budget of the checkpoint store (backends/checkpoints.py) holds: exactly on the disks
    whose count of bytes no kill has put wrong. The budget is any number of bytes. */
module CheckpointBudget {

  import opened Wrappers
  import opened Checkpoints

  function Packed(content: Option<Bytes>): nat {
    if content.Some? then content.value.packed else 0
  }

  /** Every completed `add` ends within the budget or with the new checkpoint alone. */
  ghost predicate BoundHolds(d: Disk) {
    forall settings: Settings, order: seq<string>, lineage: string, rev: int, base: Option<int>, content: Option<Bytes> |
      Ordered(d, order, lineage) && order[|order| - 1] == lineage && (content.Some? ==> content.value.packed > 0) ::
      Total(Added(d, settings, order, lineage, rev, base, content).files) <= MaxInt(settings.budget, Packed(content))
  }

  /** A live row that lost its file. */
  predicate Phantom(d: Disk, lineage: string, i: nat) {
    var rows := IndexOf(d, lineage).rows;
    i < |rows| && Live(rows[i]) && !rows[i].blank && Key(lineage, i) !in d.files
  }

  predicate Real(d: Disk, key: Key) {
    key in d.files && !Stray(d, key)
  }

  /** No eviction can come to a phantom before it has taken every checkpoint but `kept`: what is left
      on disk is older than the phantom and of its own lineage. */
  ghost predicate Harmless(d: Disk, kept: Option<Key>) {
    forall lineage, i: nat, key | Phantom(d, lineage, i) && Real(d, key) && Some(key) != kept ::
      key.lineage == lineage && key.sq < i
  }

  // ── where it holds ──

  /** The count is no less than what is on disk, or nothing but `spare` is on disk. */
  ghost predicate Counted(files: map<Key, Bytes>, lineage: string, rows: seq<Row>, size: int, spare: set<Key>) {
    Total(Purged(files, lineage, rows)) <= size || forall key | key in Purged(files, lineage, rows) :: key in spare
  }

  /** Evicting a phantom takes off bytes that are not there, but then nothing else is. */
  lemma {:induction false} BySizeCounts(
    files: map<Key, Bytes>, lineage: string, rows: seq<Row>, k: nat, size: int, cap: int, keepSeq: Option<nat>, spare: set<Key>)
    requires Sequenced(rows) && Holding(files, lineage, rows) && Counted(files, lineage, rows, size, spare)
    requires forall key | key in files && key !in spare && key.lineage == lineage ::
      key.sq < |rows| && !rows[key.sq].blank && rows[key.sq].bytes > 0 && Some(key.sq) != keepSeq
    requires forall i, key | 0 <= i < |rows| && Live(rows[i]) && rows[i].bytes > 0 && Key(lineage, i) !in files && key in files && key !in spare ::
      key.lineage == lineage && key.sq < i
    requires forall j | 0 <= j < k && j < |rows| && Live(rows[j]) && rows[j].bytes > 0 :: Some(j) == keepSeq
    ensures var trim := BySize(rows, k, size, cap, keepSeq); Counted(files, lineage, trim.rows, trim.size, spare)
    decreases |rows| - k
  {
    if k < |rows| && size > cap {
      if Live(rows[k]) && rows[k].bytes > 0 && Some(rows[k].sq) != keepSeq {
        var next := rows[k := Evicted(rows[k])];
        PurgedOne(files, lineage, rows, k);
        TotalGone(Purged(files, lineage, rows), Key(lineage, k));
        BySizeCounts(files, lineage, next, k + 1, size - rows[k].bytes, cap, keepSeq, spare);
      } else {
        BySizeCounts(files, lineage, rows, k + 1, size, cap, keepSeq, spare);
      }
    }
  }

  /** One lineage's rows evicted: the disk is as harmless, and its bytes as well counted. */
  lemma TrimmedHarmless(d: Disk, lineage: string, rows: seq<Row>, kept: Key)
    requires Sound(d) && Harmless(d, Some(kept))
    requires Continues(IndexOf(d, lineage).rows, rows) && |rows| == |IndexOf(d, lineage).rows|
    ensures Harmless(WithRows(d, lineage, rows), Some(kept))
  {
    var later := WithRows(d, lineage, rows);
    WithRowsSound(d, lineage, rows);
    hide Sound, WithRows;
    assert later.files == Purged(d.files, lineage, rows) by {
      assert later == WithRows(d, lineage, rows);
      PurgedByRows(d, lineage, rows);
    }
    forall other, i: nat, key | Phantom(later, other, i) && Real(later, key) && key != kept
      ensures key.lineage == other && key.sq < i
    {
      assert Phantom(d, other, i) by {
        assert IndexOf(later, other).rows[i].(evicted := IndexOf(d, other).rows[i].evicted) == IndexOf(d, other).rows[i];
      }
      assert Real(d, key) by {
        assert key in Strays(d) ==> key in Strays(later);
      }
    }
  }

  lemma PurgedByRows(d: Disk, lineage: string, rows: seq<Row>)
    ensures WithRows(d, lineage, rows).files == Purged(d.files, lineage, rows)
  {
  }

  lemma LineageCounts(d: Disk, order: seq<string>, lineage: string, total: int, budget: int, kept: Key)
    requires Sound(d) && Harmless(d, Some(kept)) && kept.sq == |IndexOf(d, kept.lineage).rows| - 1
    requires (forall key | key in d.files :: key.lineage in order) && lineage in order
    requires Total(d.files) <= total || Drained(d, order, |order|, kept)
    ensures var trim := BySize(IndexOf(d, lineage).rows, 0, total, budget, Kept(lineage, kept.lineage, kept.sq));
      var later := WithRows(d, lineage, trim.rows);
      Total(later.files) <= trim.size || Drained(later, order, |order|, kept)
  {
    hide Drained, BySize;
    var rows := IndexOf(d, lineage).rows;
    var spared := Kept(lineage, kept.lineage, kept.sq);
    var spare := Strays(d).Keys + {kept};
    HoldsRows(d, lineage);
    assert Counted(d.files, lineage, rows, total, spare) by {
      if Drained(d, order, |order|, kept) {
        DrainedIsSpare(d, order, kept);
      }
    }
    RealRows(d, lineage, kept);
    BySizeCounts(d.files, lineage, rows, 0, total, budget, spared, spare);
    var trim := BySize(rows, 0, total, budget, spared);
    BySizeKeeps(rows, rows, 0, total, budget, spared);
    WithRowsSound(d, lineage, trim.rows);
    PurgedByRows(d, lineage, trim.rows);
    var later := WithRows(d, lineage, trim.rows);
    if forall key | key in later.files :: key in spare {
      SpareIsDrained(later, order, kept);
    }
  }

  lemma DrainedIsSpare(d: Disk, order: seq<string>, kept: Key)
    requires Drained(d, order, |order|, kept) && forall key | key in d.files :: key.lineage in order
    ensures forall key | key in d.files :: key in Strays(d).Keys + {kept}
  {
    forall key | key in d.files ensures key in Strays(d).Keys + {kept} {
      var i :| 0 <= i < |order| && order[i] == key.lineage;
    }
  }

  lemma SpareIsDrained(d: Disk, order: seq<string>, kept: Key)
    requires forall key | key in d.files :: key in Strays(d).Keys + {kept}
    ensures Drained(d, order, |order|, kept)
  {
  }

  /** What stands in the index for a checkpoint on disk, and for one that is not. */
  lemma RealRows(d: Disk, lineage: string, kept: Key)
    requires Sound(d) && Harmless(d, Some(kept))
    ensures var rows, spare := IndexOf(d, lineage).rows, Strays(d).Keys + {kept};
      && (forall key | key in d.files && key !in spare && key.lineage == lineage ::
            key.sq < |rows| && !rows[key.sq].blank && rows[key.sq].bytes > 0 && Some(key.sq) != Kept(lineage, kept.lineage, kept.sq))
      && (forall i, key | 0 <= i < |rows| && Live(rows[i]) && rows[i].bytes > 0 && Key(lineage, i) !in d.files && key in d.files && key !in spare ::
            key.lineage == lineage && key.sq < i)
  {
    var rows, spare := IndexOf(d, lineage).rows, Strays(d).Keys + {kept};
    forall key | key in d.files && key !in spare && key.lineage == lineage
      ensures key.sq < |rows| && !rows[key.sq].blank && rows[key.sq].bytes > 0
    {
      RowAt(d, lineage, key.sq);
    }
    forall i, key | 0 <= i < |rows| && Live(rows[i]) && rows[i].bytes > 0 && Key(lineage, i) !in d.files && key in d.files && key !in spare
      ensures key.lineage == lineage && key.sq < i
    {
      RowAt(d, lineage, i);
      assert Phantom(d, lineage, i) && Real(d, key);
    }
  }

  lemma {:induction false} BudgetedCounts(d: Disk, order: seq<string>, k: nat, total: int, budget: int, kept: Key)
    requires Sound(d) && DistinctNames(order) && (forall key | key in d.files :: key.lineage in order) && k <= |order|
    requires Harmless(d, Some(kept)) && kept.sq == |IndexOf(d, kept.lineage).rows| - 1
    requires Total(d.files) <= total || Drained(d, order, |order|, kept)
    requires Drained(d, order, k, kept)
    ensures Total(Budgeted(d, order, k, total, budget, kept.lineage, kept.sq).files) <=
      MaxInt(budget, IndexOf(d, kept.lineage).rows[kept.sq].bytes + Total(Strays(d)))
    decreases |order| - k
  {
    hide Sound, Harmless, Drained, Total, BySize;
    if Drained(d, order, |order|, kept) && (total <= budget || k == |order|) {
      DrainedTotal(d, order, kept.lineage, kept.sq);
    } else if total > budget && k < |order| {
      var rows := IndexOf(d, order[k]).rows;
      var spared := Kept(order[k], kept.lineage, kept.sq);
      var trim := BySize(rows, 0, total, budget, spared);
      var later := WithRows(d, order[k], trim.rows);
      HoldsRows(d, order[k]);
      SelfOldest(rows, spared);
      BySizeKeeps(rows, rows, 0, total, budget, spared);
      WithRowsSound(d, order[k], trim.rows);
      SparedStays(rows, trim.rows, spared);
      TrimmedHarmless(d, order[k], trim.rows, kept);
      LineageCounts(d, order, order[k], total, budget, kept);
      if trim.size > budget {
        LineageDrained(d, order, k, kept.lineage, kept.sq, trim.rows);
        BudgetedCounts(later, order, k + 1, trim.size, budget, kept);
      } else if Drained(later, order, |order|, kept) {
        DrainedTotal(later, order, kept.lineage, kept.sq);
      }
    }
  }

  lemma IndexedHarmless(d: Disk, settings: Settings, lineage: string, rev: int, base: Option<int>, content: Option<Bytes>)
    requires Sound(d) && Harmless(d, None) && (content.Some? ==> content.value.packed > 0)
    ensures var e := Indexed(d, settings, lineage, rev, base, content);
      Harmless(e, Some(Key(lineage, |IndexOf(d, lineage).rows|))) && Total(Strays(e)) <= Total(Strays(d))
  {
    var e, n := Indexed(d, settings, lineage, rev, base, content), |IndexOf(d, lineage).rows|;
    IndexedSound(d, settings, lineage, rev, base, content);
    hide Sound, OldestFirst, LineageTrimmed, Total, Count;
    forall key | key in e.files && Stray(e, key) ensures key in Strays(d) && Strays(d)[key] == e.files[key] {
      IndexedRows(d, settings, lineage, rev, base, content, key.lineage, key.sq);
    }
    TotalAtMost(Strays(e), Strays(d));
    forall other, i: nat, key | Phantom(e, other, i) && Real(e, key) && key != Key(lineage, n)
      ensures key.lineage == other && key.sq < i
    {
      IndexedRows(d, settings, lineage, rev, base, content, other, i);
      IndexedRows(d, settings, lineage, rev, base, content, key.lineage, key.sq);
      assert Phantom(d, other, i) && Real(d, key);
    }
  }

  /** Row `i` and its file before the new row was put in the index, seen from after. */
  lemma IndexedRows(
    d: Disk, settings: Settings, lineage: string, rev: int, base: Option<int>, content: Option<Bytes>, other: string, i: nat)
    requires Sound(d) && (content.Some? ==> content.value.packed > 0)
    ensures var e, n := Indexed(d, settings, lineage, rev, base, content), |IndexOf(d, lineage).rows|;
      var was, now := IndexOf(d, other).rows, IndexOf(e, other).rows;
      && |now| == (if other == lineage then n + 1 else |was|)
      && (i < |was| ==> now[i].blank == was[i].blank && (Live(now[i]) ==> Live(was[i])))
      && (other == lineage && i == n ==> now[n].blank == content.None?)
      && (!(other == lineage && i == n && content.Some?) && Key(other, i) in e.files ==> Key(other, i) in d.files && e.files[Key(other, i)] == d.files[Key(other, i)])
      && (i < |was| && Live(now[i]) && Key(other, i) in d.files ==> Key(other, i) in e.files)
      && (other == lineage && i == n && content.Some? ==> Key(other, i) in e.files)
  {
    IndexedSound(d, settings, lineage, rev, base, content);
    hide Sound, OldestFirst, LineageTrimmed, Count;
    var e := Indexed(d, settings, lineage, rev, base, content);
    assert Continues(IndexOf(d, other).rows, IndexOf(e, other).rows);
    if i < |IndexOf(d, other).rows| {
      assert IndexOf(e, other).rows[i].(evicted := IndexOf(d, other).rows[i].evicted) == IndexOf(d, other).rows[i];
    }
  }

  lemma HarmlessStaysInBudget(
    d: Disk, settings: Settings, order: seq<string>, lineage: string, rev: int, base: Option<int>, content: Option<Bytes>)
    requires Sound(d) && Harmless(d, None) && Total(Strays(d)) == 0
    requires Ordered(d, order, lineage) && (content.Some? ==> content.value.packed > 0)
    ensures Total(Added(d, settings, order, lineage, rev, base, content).files) <= MaxInt(settings.budget, Packed(content))
  {
    hide Indexed, Budgeted, OldestFirst, Continues, Harmless, Total;
    var e, kept := Indexed(d, settings, lineage, rev, base, content), Key(lineage, |IndexOf(d, lineage).rows|);
    IndexedSound(d, settings, lineage, rev, base, content);
    IndexedHarmless(d, settings, lineage, rev, base, content);
    IndexedOrdered(d, settings, order, lineage, rev, base, content);
    NothingDrained(e, order, kept);
    BudgetedCounts(e, order, 0, Total(e.files), settings.budget, kept);
  }

  // ── where it does not ──

  lemma {:induction false} LongerThanAll(names: set<string>) returns (length: nat)
    ensures forall name | name in names :: |name| < length
    decreases |names|
  {
    length := 0;
    if name :| name in names {
      var others := LongerThanAll(names - {name});
      length := if |name| < others then others else |name| + 1;
    }
  }

  lemma {:induction false} Listing(names: set<string>) returns (list: seq<string>)
    ensures DistinctNames(list) && forall name :: name in list <==> name in names
    decreases |names|
  {
    list := [];
    if name :| name in names {
      var others := Listing(names - {name});
      list := [name] + others;
    }
  }

  function Lineages(d: Disk): set<string> {
    d.indexes.Keys + set key | key in d.files :: key.lineage
  }

  /** A lineage not there yet, and an order with `first` first and it last. */
  lemma FreshOrder(d: Disk, first: string) returns (order: seq<string>, fresh': string)
    requires first in Lineages(d)
    ensures fresh' !in Lineages(d) && Ordered(d, order, fresh') && order[0] == first && order[|order| - 1] == fresh'
  {
    var length := LongerThanAll(Lineages(d));
    fresh' := seq(length, _ => 'a');
    var others := Listing(Lineages(d) - {first});
    order := [first] + others + [fresh'];
    assert DistinctNames(order) by {
      forall i, j | 0 <= i < j < |order| ensures order[i] != order[j] {
        assert 0 < i < |order| - 1 ==> order[i] == others[i - 1] && others[i - 1] in others;
        assert 0 < j < |order| - 1 ==> order[j] == others[j - 1] && others[j - 1] in others;
      }
    }
    forall key | key in d.files ensures key.lineage in order {
      assert key.lineage in Lineages(d);
      assert key.lineage == first || key.lineage in others;
    }
  }

  const BLANK := Row(0, 0, 0, Bytes("", 0), 0, true, false)

  function WithBlank(d: Disk, lineage: string): Disk {
    Disk(d.indexes[lineage := Index(1, [BLANK])], d.files)
  }

  /** The first checkpoint of a new lineage, of a blank drawing. */
  lemma BlankIndexed(d: Disk, lineage: string, budget: int)
    requires lineage !in Lineages(d)
    ensures Indexed(d, Settings(1, budget, 0), lineage, 0, None, None) == WithBlank(d, lineage)
  {
    var rows := IndexOf(d, lineage).rows + [NewRow(d, lineage, 0, None, None)];
    assert rows == [BLANK];
    assert Count(rows, 1) == 0 && Count(rows, 0) == 0 && SizeOf(rows, 1) == 0 && SizeOf(rows, 0) == 0;
    assert ByCount(rows, 0, -1, 0) == rows && BySize(rows, 0, 0, 0, Some(0)) == Trim(rows, 0);
    assert LineageTrimmed(rows, Settings(1, budget, 0), 0) == rows;
    assert Purged(d.files, lineage, rows) == d.files;
  }

  /** A stray file stays whatever the budget. */
  lemma StrayOverruns(d: Disk)
    requires Sound(d) && Total(Strays(d)) > 0
    ensures !BoundHolds(d)
  {
    var key := SomeFile(Strays(d));
    var order, lineage := FreshOrder(d, key.lineage);
    var settings := Settings(1, 0, 0);
    StraysStay(d, order, lineage);
    hide *;
    assert Total(Added(d, settings, order, lineage, 0, None, None).files) > 0;
    NotInBudget(d, settings, order, lineage);
  }

  lemma SomeFile(files: map<Key, Bytes>) returns (key: Key)
    requires Total(files) > 0
    ensures key in files
  {
    assert files != map[];
    key :| key in files;
  }

  lemma NotInBudget(d: Disk, settings: Settings, order: seq<string>, lineage: string)
    requires Ordered(d, order, lineage) && order[|order| - 1] == lineage
    requires Total(Added(d, settings, order, lineage, 0, None, None).files) > MaxInt(settings.budget, 0)
    ensures !BoundHolds(d)
  {
    hide Added, Ordered, Total;
    assert Packed(None) == 0;
  }

  lemma StraysStay(d: Disk, order: seq<string>, lineage: string)
    requires Sound(d) && lineage !in Lineages(d) && Ordered(d, order, lineage)
    ensures Total(Added(d, Settings(1, 0, 0), order, lineage, 0, None, None).files) >= Total(Strays(d))
  {
    hide Total, Budgeted, Indexed;
    var settings := Settings(1, 0, 0);
    BlankIndexed(d, lineage, 0);
    IndexedSound(d, settings, lineage, 0, None, None);
    var indexed := WithBlank(d, lineage);
    SelfOldest(IndexOf(indexed, lineage).rows, Kept(lineage, lineage, 0));
    BudgetedKeeps(indexed, order, 0, Total(indexed.files), 0, lineage, 0, lineage, IndexOf(indexed, lineage).rows);
    var e := Added(d, settings, order, lineage, 0, None, None);
    hide Sound, Added, OldestFirst, Ordered;
    forall k | k in Strays(d) ensures k in Strays(indexed) && Strays(indexed)[k] == Strays(d)[k] {
      assert k.lineage in Lineages(d);
    }
    TotalAtMost(Strays(d), Strays(e));
    TotalAtMost(Strays(e), e.files);
  }

  /** The bytes of live rows from `k` up to `i`. */
  function Between(rows: seq<Row>, k: nat, i: nat): nat
    requires i <= |rows|
    decreases i - k
  {
    if k >= i then 0 else (if Live(rows[k]) then rows[k].bytes else 0) + Between(rows, k + 1, i)
  }

  lemma {:induction false} BetweenSame(rows: seq<Row>, later: seq<Row>, k: nat, i: nat)
    requires i <= |rows| && |later| == |rows| && forall j | k <= j < i :: later[j] == rows[j]
    ensures Between(later, k, i) == Between(rows, k, i)
    decreases i - k
  {
    if k < i {
      BetweenSame(rows, later, k + 1, i);
    }
  }

  lemma BetweenStep(rows: seq<Row>, k: nat, i: nat)
    requires i <= |rows|
    ensures Between(rows, k, i) == if k >= i then 0 else (if Live(rows[k]) then rows[k].bytes else 0) + Between(rows, k + 1, i)
  {
  }

  /** A row evicted: its file, if it has one, and nothing else is off the disk. */
  lemma OneEvicted(files: map<Key, Bytes>, lineage: string, rows: seq<Row>, k: nat)
    requires Sequenced(rows) && Holding(files, lineage, rows) && k < |rows| && Live(rows[k]) && rows[k].bytes > 0
    ensures var next := rows[k := Evicted(rows[k])];
      && Sequenced(next) && Holding(files, lineage, next)
      && Total(Purged(files, lineage, next)) == Total(Purged(files, lineage, rows)) - if Key(lineage, k) in files then rows[k].bytes else 0
  {
    hide Total;
    PurgedOne(files, lineage, rows, k);
    TotalGone(Purged(files, lineage, rows), Key(lineage, k));
  }

  /** With one byte less than what is on disk when the eviction comes to a phantom at `i`, it stops there
      with that one byte too many. */
  lemma {:induction false} BySizeStops(files: map<Key, Bytes>, lineage: string, rows: seq<Row>, k: nat, i: nat, size: int, cap: int)
    requires Sequenced(rows) && Holding(files, lineage, rows) && k <= i < |rows|
    requires Live(rows[i]) && rows[i].bytes > 0 && Key(lineage, i) !in files
    requires forall j | k <= j < i && Live(rows[j]) && rows[j].bytes > 0 :: Key(lineage, j) in files
    requires size == Total(Purged(files, lineage, rows)) && cap == size - Between(rows, k, i) - 1
    ensures var trim := BySize(rows, k, size, cap, None);
      && trim.size <= cap && Total(Purged(files, lineage, trim.rows)) == cap + 1
      && forall j | i < j < |rows| :: trim.rows[j] == rows[j]
    decreases i - k
  {
    hide Total, Between;
    var next := rows[k := Evicted(rows[k])];
    BetweenStep(rows, k, i);
    if Live(rows[k]) && rows[k].bytes > 0 {
      hide Purged;
      OneEvicted(files, lineage, rows, k);
      if k < i {
        BetweenSame(rows, next, k + 1, i);
        BySizeStops(files, lineage, next, k + 1, i, size - rows[k].bytes, cap);
      } else {
        assert BySize(next, k + 1, size - rows[k].bytes, cap, None) == Trim(next, size - rows[k].bytes);
      }
    } else {
      BySizeStops(files, lineage, rows, k + 1, i, size, cap);
    }
  }

  lemma {:induction false} FirstPhantom(d: Disk, lineage: string, i: nat) returns (first: nat)
    requires Phantom(d, lineage, i)
    ensures first <= i && Phantom(d, lineage, first) && forall j: nat | j < first :: !Phantom(d, lineage, j)
    decreases i
  {
    if j: nat :| j < i && Phantom(d, lineage, j) {
      first := FirstPhantom(d, lineage, j);
    } else {
      first := i;
    }
  }

  lemma PhantomOverruns(d: Disk, lineage: string, i: nat, key: Key)
    requires Sound(d) && Phantom(d, lineage, i) && Real(d, key) && !(key.lineage == lineage && key.sq < i)
    ensures !BoundHolds(d)
  {
    hide Sound, Added, Total, Budgeted, Ordered;
    var first := FirstPhantom(d, lineage, i);
    var order, other := FreshOrder(d, lineage);
    var budget, kept := StopsAtPhantom(d, lineage, first);
    var left := Purged(d.files, lineage, kept);
    OneLineageEvicted(d, order, other, budget, kept);
    StillThere(d, lineage, IndexOf(d, lineage).rows, kept, first, key);
    TotalWithout(left, key);
    NotInBudget(d, Settings(1, budget, 0), order, other);
  }

  /** The budget that stops the eviction one byte too early. */
  lemma StopsAtPhantom(d: Disk, lineage: string, first: nat) returns (budget: int, kept: seq<Row>)
    requires Sound(d) && Phantom(d, lineage, first) && forall j: nat | j < first :: !Phantom(d, lineage, j)
    ensures var rows, total := IndexOf(d, lineage).rows, Total(d.files);
      && budget < total && |kept| == |rows| && kept == BySize(rows, 0, total, budget, None).rows
      && BySize(rows, 0, total, budget, None).size <= budget && Total(Purged(d.files, lineage, kept)) == budget + 1
      && forall j | first < j < |rows| :: kept[j] == rows[j]
  {
    hide Total, BySize;
    var rows := IndexOf(d, lineage).rows;
    HoldsRows(d, lineage);
    RowAt(d, lineage, first);
    forall j | 0 <= j < first && Live(rows[j]) && rows[j].bytes > 0 ensures Key(lineage, j) in d.files {
      RowAt(d, lineage, j);
      assert !Phantom(d, lineage, j);
    }
    budget := Total(d.files) - Between(rows, 0, first) - 1;
    hide Sound;
    BySizeStops(d.files, lineage, rows, 0, first, Total(d.files), budget);
    kept := BySize(rows, 0, Total(d.files), budget, None).rows;
  }

  lemma OneLineageEvicted(d: Disk, order: seq<string>, other: string, budget: int, kept: seq<Row>)
    requires order != [] && other !in Lineages(d) && order[0] in Lineages(d) && budget < Total(d.files)
    requires var trim := BySize(IndexOf(d, order[0]).rows, 0, Total(d.files), budget, None); kept == trim.rows && trim.size <= budget
    ensures Added(d, Settings(1, budget, 0), order, other, 0, None, None).files == Purged(d.files, order[0], kept)
  {
    hide Total, BySize, Indexed, Budgeted;
    BlankIndexed(d, other, budget);
    var indexed := WithBlank(d, other);
    BudgetedStep(indexed, order, 0, Total(d.files), budget, other, 0);
    PurgedByRows(indexed, order[0], kept);
  }

  lemma StillThere(d: Disk, lineage: string, rows: seq<Row>, kept: seq<Row>, first: nat, key: Key)
    requires Sound(d) && rows == IndexOf(d, lineage).rows && |kept| == |rows|
    requires Real(d, key) && !(key.lineage == lineage && key.sq <= first) && forall j | first < j < |rows| :: kept[j] == rows[j]
    ensures key in Purged(d.files, lineage, kept) && d.files[key].packed > 0
  {
    assert FileOk(d, key);
    RowAt(d, key.lineage, key.sq);
  }

  /** The budget bounds every `add` to a disk exactly when no stray file has bytes and every phantom row
      is newer than all that is on disk, and of the same lineage. */
  lemma BoundHoldsIff(d: Disk)
    requires Sound(d)
    ensures BoundHolds(d) <==> Total(Strays(d)) == 0 && Harmless(d, None)
  {
    hide Added, Total, Sound;
    if Total(Strays(d)) > 0 {
      StrayOverruns(d);
    } else if lineage, i: nat, key :| Phantom(d, lineage, i) && Real(d, key) && !(key.lineage == lineage && key.sq < i) {
      PhantomOverruns(d, lineage, i, key);
    } else {
      forall settings: Settings, order: seq<string>, lineage: string, rev: int, base: Option<int>, content: Option<Bytes> |
        Ordered(d, order, lineage) && order[|order| - 1] == lineage && (content.Some? ==> content.value.packed > 0)
        ensures Total(Added(d, settings, order, lineage, rev, base, content).files) <= MaxInt(settings.budget, Packed(content))
      {
        HarmlessStaysInBudget(d, settings, order, lineage, rev, base, content);
      }
    }
  }
}
