/** Change summaries (backends/change_sets.py): several merged into one, and the headless engine's
    incremental one against the full difference.

    A drawing is its live entities' handles and the layout or named block that owns each; the feature
    tokens in an entity's payloads are a parameter. */
module ChangeSets {

  import opened Wrappers

  const LIST_CAP: nat := 50

  const FEATURE_CAP: nat := 20

  datatype Count = Count(added: nat, deleted: nat)

  datatype Summary = Summary(
    added: seq<nat>, deleted: seq<nat>, counts: map<string, Count>, complete: bool,
    unlistedAdded: nat, unlistedDeleted: nat, features: seq<string>)

  function Capped(list: seq<nat>): seq<nat> {
    if |list| > LIST_CAP then list[..LIST_CAP] else list
  }

  function Unlisted(list: seq<nat>): nat {
    if |list| > LIST_CAP then |list| - LIST_CAP else 0
  }

  /** `_finish`. */
  function Finished(added: seq<nat>, deleted: seq<nat>, counts: map<string, Count>, complete: bool, features: seq<string>): Summary {
    Summary(Capped(added), Capped(deleted), map owner | owner in counts && counts[owner] != Count(0, 0) :: counts[owner],
            complete, Unlisted(added), Unlisted(deleted), features)
  }

  /** A list's first 50, and how many more there are. */
  predicate ShowsFirst(list: seq<nat>, shown: seq<nat>, unlisted: nat) {
    shown <= list && |shown| + unlisted == |list| && |shown| <= 50 && (unlisted > 0 ==> |shown| == 50)
  }

  /** The summary of these lists and counts: of the counts those that count something. */
  ghost predicate Shows(summary: Summary, added: seq<nat>, deleted: seq<nat>, counts: map<string, Count>) {
    && ShowsFirst(added, summary.added, summary.unlistedAdded) && ShowsFirst(deleted, summary.deleted, summary.unlistedDeleted)
    && (forall owner :: owner in summary.counts <==> owner in counts && (counts[owner].added > 0 || counts[owner].deleted > 0))
    && (forall owner | owner in summary.counts :: summary.counts[owner] == counts[owner])
  }

  lemma FinishedShows(added: seq<nat>, deleted: seq<nat>, counts: map<string, Count>, complete: bool, features: seq<string>)
    ensures var summary := Finished(added, deleted, counts, complete, features);
      Shows(summary, added, deleted, counts) && summary.complete == complete && summary.features == features
  {
  }

  predicate Truncated(part: Summary) {
    part.unlistedAdded > 0 || part.unlistedDeleted > 0
  }

  function Elements(list: seq<nat>): set<nat> {
    set h | h in list
  }

  predicate Distinct(list: seq<nat>) {
    forall i, j | 0 <= i < j < |list| :: list[i] != list[j]
  }

  // ── feature tokens ──

  /** The tokens in the order first seen. */
  function FirstSeen(tokens: seq<string>): (seen: seq<string>)
    ensures forall t :: t in seen <==> t in tokens
    decreases |tokens|
  {
    if tokens == [] then []
    else
      var rest, last := tokens[..|tokens| - 1], tokens[|tokens| - 1];
      FirstSeen(rest) + if last in rest then [] else [last]
  }

  /** The features a summary lists for them. */
  function Features(tokens: seq<string>): seq<string> {
    var seen := FirstSeen(tokens);
    if |seen| > FEATURE_CAP then seen[..FEATURE_CAP] else seen
  }

  /** Where a token stands first. */
  ghost predicate FirstAt(tokens: seq<string>, token: string, k: nat) {
    k < |tokens| && tokens[k] == token && token !in tokens[..k]
  }

  ghost predicate StandsBefore(tokens: seq<string>, a: string, b: string) {
    forall k: nat, l: nat | FirstAt(tokens, a, k) && FirstAt(tokens, b, l) :: k < l
  }

  /** A summary's features: each a token, in the order they first stand, so once; and all of them, or twenty
      that stand before any other. */
  ghost predicate FirstFeatures(tokens: seq<string>, features: seq<string>) {
    && |features| <= 20
    && (forall f | f in features :: f in tokens)
    && (forall i, j | 0 <= i < j < |features| :: StandsBefore(tokens, features[i], features[j]))
    && (forall t | t in tokens && t !in features :: |features| == 20 && forall f | f in features :: StandsBefore(tokens, f, t))
  }

  lemma {:induction false} FirstSeenInOrder(tokens: seq<string>, i: nat, j: nat)
    requires i < j < |FirstSeen(tokens)|
    ensures StandsBefore(tokens, FirstSeen(tokens)[i], FirstSeen(tokens)[j])
    decreases |tokens|
  {
    var n := |tokens| - 1;
    var rest, seen := tokens[..n], FirstSeen(tokens);
    assert seen[i] == FirstSeen(rest)[i];
    if j < |FirstSeen(rest)| {
      FirstSeenInOrder(rest, i, j);
      assert seen[j] == FirstSeen(rest)[j];
    }
    forall k: nat, l: nat | FirstAt(tokens, seen[i], k) && FirstAt(tokens, seen[j], l) ensures k < l {
      FirstInRest(tokens, seen[i], k);
      FirstInRest(tokens, seen[j], l);
    }
  }

  lemma FirstInRest(tokens: seq<string>, token: string, k: nat)
    requires FirstAt(tokens, token, k)
    ensures token in tokens[..|tokens| - 1] ==> FirstAt(tokens[..|tokens| - 1], token, k)
    ensures token !in tokens[..|tokens| - 1] ==> k == |tokens| - 1
  {
    var rest := tokens[..|tokens| - 1];
    if k < |tokens| - 1 {
      assert rest[k] == token && rest[..k] == tokens[..k];
    } else {
      assert tokens[..k] == rest;
    }
  }

  lemma FeaturesAreFirst(tokens: seq<string>)
    ensures FirstFeatures(tokens, Features(tokens))
  {
    hide FirstSeen, StandsBefore;
    var seen, features := FirstSeen(tokens), Features(tokens);
    forall i, j | 0 <= i < j < |seen| ensures StandsBefore(tokens, seen[i], seen[j]) {
      FirstSeenInOrder(tokens, i, j);
    }
    assert features <= seen;
    forall t | t in tokens && t !in features
      ensures |features| == 20 && forall f | f in features :: StandsBefore(tokens, f, t)
    {
      assert t in seen;
      var j :| 0 <= j < |seen| && seen[j] == t;
      assert j >= |features|;
    }
  }

  lemma FeaturesNext(tokens: seq<string>, token: string)
    ensures Features(tokens + [token]) ==
      if |Features(tokens)| < FEATURE_CAP && token !in Features(tokens) then Features(tokens) + [token] else Features(tokens)
  {
    assert (tokens + [token])[..|tokens|] == tokens;
    assert FirstSeen(tokens + [token]) == FirstSeen(tokens) + if token in tokens then [] else [token];
  }

  /** Tokens into the ordered set, up to the cap. */
  method AddTokens(features: seq<string>, tokens: seq<string>, ghost before: seq<string>) returns (listed: seq<string>)
    requires features == Features(before)
    ensures listed == Features(before + tokens)
  {
    hide Features;
    listed := features;
    assert before + tokens[..0] == before;
    for k := 0 to |tokens|
      invariant listed == Features(before + tokens[..k])
    {
      assert before + tokens[..k + 1] == before + tokens[..k] + [tokens[k]];
      FeaturesNext(before + tokens[..k], tokens[k]);
      if |listed| < FEATURE_CAP && tokens[k] !in listed {
        listed := listed + [tokens[k]];
      }
    }
    assert tokens[..|tokens|] == tokens;
  }

  // ── merging ──

  /** The merged sets so far. */
  datatype Merged = Merged(added: set<nat>, deleted: set<nat>)

  /** The handles listed more than once. */
  function Repeated(list: seq<nat>): set<nat> {
    set h | h in list && exists i, j :: 0 <= i < j < |list| && list[i] == h && list[j] == h
  }

  /** One more operation's: a handle added before and deleted now, once, is neither. */
  function MergedWith(m: Merged, added: seq<nat>, deleted: seq<nat>): Merged {
    Merged(m.added - Elements(deleted) + Elements(added), m.deleted + (Elements(deleted) - (m.added - Repeated(deleted))))
  }

  function MergeOf(parts: seq<Summary>): Merged
    decreases |parts|
  {
    if parts == [] then Merged({}, {})
    else
      var last := parts[|parts| - 1];
      MergedWith(MergeOf(parts[..|parts| - 1]), last.added, last.deleted)
  }

  /** The summaries describe a drawing's handles from state to state. */
  predicate Describes(states: seq<set<nat>>, parts: seq<Summary>) {
    && |states| == |parts| + 1
    && forall i | 0 <= i < |parts| ::
         && Elements(parts[i].added) == states[i + 1] - states[i] && Elements(parts[i].deleted) == states[i] - states[i + 1]
         && Distinct(parts[i].deleted)
  }

  lemma NoneRepeated(list: seq<nat>)
    requires Distinct(list)
    ensures Repeated(list) == {}
  {
  }

  /** A merge is faithful: the end is the start less the deleted, plus the added; nothing is deleted
      that was not there at the start; and what was there at the start and is added was deleted. */
  lemma {:induction false} MergeFollows(states: seq<set<nat>>, parts: seq<Summary>)
    requires Describes(states, parts)
    ensures var m, start, end := MergeOf(parts), states[0], states[|parts|];
      end == start - m.deleted + m.added && m.deleted <= start && m.added * start <= m.deleted
    decreases |parts|
  {
    if parts != [] {
      var n := |parts| - 1;
      MergeFollows(states[..n + 1], parts[..n]);
      assert Elements(parts[n].added) == states[n + 1] - states[n];
      NoneRepeated(parts[n].deleted);
    }
  }

  /** A handle there at the start is among the merged deleted exactly if it was gone at some moment. */
  lemma {:induction false} DeletedWereGone(states: seq<set<nat>>, parts: seq<Summary>, h: nat)
    requires Describes(states, parts) && h in states[0]
    ensures h in MergeOf(parts).deleted <==> exists i :: 0 <= i < |states| && h !in states[i]
    decreases |parts|
  {
    if parts != [] {
      var n := |parts| - 1;
      DeletedWereGone(states[..n + 1], parts[..n], h);
      MergeFollows(states[..n + 1], parts[..n]);
      assert Elements(parts[n].deleted) == states[n] - states[n + 1];
      NoneRepeated(parts[n].deleted);
      GoneSomewhere(states, n + 1, h);
    }
  }

  lemma GoneSomewhere(states: seq<set<nat>>, n: nat, h: nat)
    requires |states| == n + 1
    ensures (exists i :: 0 <= i < |states| && h !in states[i])
            <==> (exists i :: 0 <= i < |states[..n]| && h !in states[..n][i]) || h !in states[n]
  {
    if i :| 0 <= i < |states| && h !in states[i] {
      assert i < n ==> states[..n][i] == states[i];
    }
  }

  /** No handle comes back: one there at the start and at the end is there all along. */
  predicate NoneReturns(states: seq<set<nat>>)
    requires states != []
  {
    forall h, i | h in states[0] && h in states[|states| - 1] && 0 <= i < |states| :: h in states[i]
  }

  /** So the merged sets are exactly what the run added and what it deleted if and only if no handle there
      at the start was deleted and added again. */
  lemma MergeIsExact(states: seq<set<nat>>, parts: seq<Summary>)
    requires Describes(states, parts)
    ensures var m, start, end := MergeOf(parts), states[0], states[|parts|];
      (m.added == end - start && m.deleted == start - end) <==> NoneReturns(states)
  {
    var m, start, end := MergeOf(parts), states[0], states[|parts|];
    MergeFollows(states, parts);
    forall h | h in start ensures h in m.deleted <==> exists i :: 0 <= i < |states| && h !in states[i] {
      DeletedWereGone(states, parts, h);
    }
    assert forall h | h in start && h !in end :: h in m.deleted;
  }

  /** A handle deleted and added again - a restore - is in both lists, though nothing changed. */
  lemma RestoredIsInBoth(first: Summary, second: Summary)
    requires first.added == [] && first.deleted == [1] && second.added == [1] && second.deleted == []
    ensures Describes([{1}, {}, {1}], [first, second])
    ensures MergeOf([first, second]) == Merged({1}, {1})
  {
    assert [first, second][..1] == [first] && [first][..0] == [];
    NoneRepeated([1]);
    NoneRepeated([]);
    assert MergeOf([first]) == Merged({}, {1});
  }

  function CountOf(counts: map<string, Count>, owner: string): Count {
    if owner in counts then counts[owner] else Count(0, 0)
  }

  function Plus(a: Count, b: Count): Count {
    Count(a.added + b.added, a.deleted + b.deleted)
  }

  /** What the parts count of an owner, together. */
  function SumOf(parts: seq<Summary>, owner: string): Count
    decreases |parts|
  {
    if parts == [] then Count(0, 0)
    else Plus(SumOf(parts[..|parts| - 1], owner), CountOf(parts[|parts| - 1].counts, owner))
  }

  function TokensOf(parts: seq<Summary>): seq<string>
    decreases |parts|
  {
    if parts == [] then [] else TokensOf(parts[..|parts| - 1]) + parts[|parts| - 1].features
  }

  lemma SumStep(parts: seq<Summary>, part: Summary)
    ensures forall owner :: SumOf(parts + [part], owner) == Plus(SumOf(parts, owner), CountOf(part.counts, owner))
  {
    assert (parts + [part])[..|parts|] == parts;
  }

  /** Leaving out the owners nothing was counted of changes no count. */
  lemma FinishedCounts(added: seq<nat>, deleted: seq<nat>, counts: map<string, Count>, complete: bool)
    ensures forall owner, features :: CountOf(Finished(added, deleted, counts, complete, features).counts, owner) == CountOf(counts, owner)
    ensures forall owner :: CountOf(map[], owner) == Count(0, 0)
  {
  }

  /** The owners in `left` have only what they had, the others all. */
  ghost predicate SumsTo(sums: map<string, Count>, counts: map<string, Count>, more: map<string, Count>, left: set<string>) {
    forall owner ::
      CountOf(sums, owner) == if owner in left then CountOf(counts, owner) else Plus(CountOf(counts, owner), CountOf(more, owner))
  }

  lemma SumsNext(sums: map<string, Count>, counts: map<string, Count>, more: map<string, Count>, left: set<string>, owner: string)
    requires SumsTo(sums, counts, more, left) && owner in left && owner in more
    ensures SumsTo(sums[owner := Plus(CountOf(sums, owner), more[owner])], counts, more, left - {owner})
  {
    hide Plus;
    var next := sums[owner := Plus(CountOf(sums, owner), more[owner])];
    forall other
      ensures CountOf(next, other) ==
        if other in left - {owner} then CountOf(counts, other) else Plus(CountOf(counts, other), CountOf(more, other))
    {
      assert CountOf(next, other) == if other == owner then Plus(CountOf(sums, owner), more[owner]) else CountOf(sums, other);
    }
  }

  lemma SumsStart(counts: map<string, Count>, more: map<string, Count>)
    ensures SumsTo(counts, counts, more, more.Keys)
  {
    forall owner ensures owner !in more.Keys ==> Plus(CountOf(counts, owner), CountOf(more, owner)) == CountOf(counts, owner) {
    }
  }

  /** One part's counts into the merged ones. */
  method AddCounts(counts: map<string, Count>, more: map<string, Count>) returns (sums: map<string, Count>)
    ensures forall owner :: CountOf(sums, owner) == Plus(CountOf(counts, owner), CountOf(more, owner))
  {
    hide Plus, CountOf;
    sums := counts;
    var left := more.Keys;
    SumsStart(counts, more);
    while left != {}
      invariant left <= more.Keys && SumsTo(sums, counts, more, left)
      decreases |left|
    {
      var owner :| owner in left;
      SumsNext(sums, counts, more, left, owner);
      sums := sums[owner := Plus(CountOf(sums, owner), more[owner])];
      left := left - {owner};
    }
  }

  /** `merge_changes`. The lists are the merged sets in the order first seen, capped as any summary's;
      the merge is complete when every operation had a complete and untruncated summary. */
  method MergeChanges(parts: seq<Option<Summary>>) returns (merged: Option<Summary>, ghost added: seq<nat>, ghost deleted: seq<nat>)
    ensures merged.None? <==> forall i | 0 <= i < |parts| :: parts[i].None?
    ensures merged.Some? ==>
      && Distinct(added) && Distinct(deleted)
      && ShowsFirst(added, merged.value.added, merged.value.unlistedAdded)
      && ShowsFirst(deleted, merged.value.deleted, merged.value.unlistedDeleted)
      && Merged(Elements(added), Elements(deleted)) == MergeOf(Present(parts))
      && (forall owner :: CountOf(merged.value.counts, owner) == SumOf(Present(parts), owner))
      && FirstFeatures(TokensOf(Present(parts)), merged.value.features)
      && (merged.value.complete <==>
            forall i | 0 <= i < |parts| :: parts[i].Some? && parts[i].value.complete && !Truncated(parts[i].value))
  {
    hide MergeOf, MergedWith, Elements, Distinct, Present, SumOf, CountOf, Plus, Features, TokensOf, FirstFeatures;
    FinishedCounts([], [], map[], true);
    var plus: seq<nat>, minus: seq<nat> := [], [];
    var counts: map<string, Count> := map[];
    var complete, seen := true, 0;
    var features: seq<string> := [];
    NothingMerged(parts);
    for i := 0 to |parts|
      invariant Distinct(plus) && Distinct(minus) && seen == |Present(parts[..i])|
      invariant Merged(Elements(plus), Elements(minus)) == MergeOf(Present(parts[..i]))
      invariant forall owner :: CountOf(counts, owner) == SumOf(Present(parts[..i]), owner)
      invariant features == Features(TokensOf(Present(parts[..i])))
      invariant complete <==> forall k | 0 <= k < i :: parts[k].Some? && parts[k].value.complete && !Truncated(parts[k].value)
    {
      PresentNext(parts, i);
      if parts[i].None? {
        complete := false;
      } else {
        MergeStep(Present(parts[..i]), parts[i].value);
        features := AddTokens(features, parts[i].value.features, TokensOf(Present(parts[..i])));
        plus, minus := MergeOne(plus, minus, parts[i].value);
        SumStep(Present(parts[..i]), parts[i].value);
        counts := AddCounts(counts, parts[i].value.counts);
        seen := seen + 1;
        complete := complete && parts[i].value.complete && !Truncated(parts[i].value);
      }
    }
    assert parts[..|parts|] == parts;
    PresentNone(parts);
    added, deleted := plus, minus;
    FinishedCounts(plus, minus, counts, complete);
    FeaturesAreFirst(TokensOf(Present(parts)));
    merged := if seen == 0 then None else Some(Finished(plus, minus, counts, complete, features));
  }

  lemma NothingMerged(parts: seq<Option<Summary>>)
    ensures Distinct([]) && Merged(Elements([]), Elements([])) == MergeOf(Present(parts[..0])) && Present(parts[..0]) == []
    ensures forall owner :: SumOf(Present(parts[..0]), owner) == Count(0, 0)
    ensures Features(TokensOf(Present(parts[..0]))) == []
  {
  }

  lemma PresentNext(parts: seq<Option<Summary>>, i: nat)
    requires i < |parts|
    ensures Present(parts[..i + 1]) == if parts[i].Some? then Present(parts[..i]) + [parts[i].value] else Present(parts[..i])
  {
    assert parts[..i + 1][..i] == parts[..i];
  }

  lemma MergeStep(parts: seq<Summary>, part: Summary)
    ensures MergeOf(parts + [part]) == MergedWith(MergeOf(parts), part.added, part.deleted)
    ensures TokensOf(parts + [part]) == TokensOf(parts) + part.features
  {
    assert (parts + [part])[..|parts|] == parts;
  }

  function Present(parts: seq<Option<Summary>>): seq<Summary>
    decreases |parts|
  {
    if parts == [] then []
    else Present(parts[..|parts| - 1]) + (if parts[|parts| - 1].Some? then [parts[|parts| - 1].value] else [])
  }

  lemma {:induction false} PresentNone(parts: seq<Option<Summary>>)
    ensures Present(parts) == [] <==> forall i | 0 <= i < |parts| :: parts[i].None?
    decreases |parts|
  {
    if parts != [] {
      PresentNone(parts[..|parts| - 1]);
      assert forall i | 0 <= i < |parts| :: i == |parts| - 1 || parts[i] == parts[..|parts| - 1][i];
    }
  }

  function Without(list: seq<nat>, h: nat): (rest: seq<nat>)
    ensures forall x :: x in rest <==> x in list && x != h
    decreases |list|
  {
    if list == [] then [] else (if list[0] == h then [] else [list[0]]) + Without(list[1..], h)
  }

  lemma {:induction false} WithoutDistinct(list: seq<nat>, h: nat)
    requires Distinct(list)
    ensures Distinct(Without(list, h))
    decreases |list|
  {
    if list != [] {
      WithoutDistinct(list[1..], h);
      assert list[0] !in list[1..];
      var rest := Without(list[1..], h);
      assert forall i | 0 <= i < |rest| :: rest[i] in rest;
    }
  }

  /** One part's deletions, then its additions, into the ordered sets. */
  method MergeOne(plus0: seq<nat>, minus0: seq<nat>, part: Summary) returns (plus: seq<nat>, minus: seq<nat>)
    requires Distinct(plus0) && Distinct(minus0)
    ensures Distinct(plus) && Distinct(minus)
    ensures Merged(Elements(plus), Elements(minus)) ==
      MergedWith(Merged(Elements(plus0), Elements(minus0)), part.added, part.deleted)
  {
    hide Repeated, Elements, Distinct;
    ghost var old0, list := Elements(plus0), part.deleted;
    NothingDone(list);
    plus, minus := plus0, minus0;
    for k := 0 to |part.deleted|
      invariant Distinct(plus) && Distinct(minus)
      invariant Elements(plus) == old0 - Elements(list[..k])
      invariant Elements(minus) == Elements(minus0) + (Elements(list[..k]) - (old0 - Repeated(list[..k])))
    {
      var h := part.deleted[k];
      RepeatedNext(list, k);
      OneMore(list, k);
      DeletedNext(old0, Elements(minus0), Elements(list[..k]), Repeated(list[..k]), h);
      WithoutDistinct(plus, h);
      WithoutElements(plus, h);
      Appended(minus, h);
      NotListed(plus, h);
      NotListed(minus, h);
      if h in plus {
        plus := Without(plus, h);
      } else if h !in minus {
        minus := minus + [h];
      }
    }
    assert list[..|list|] == list;
    for k := 0 to |part.added|
      invariant Distinct(plus)
      invariant Elements(plus) == old0 - Elements(list) + Elements(part.added[..k])
    {
      var h := part.added[k];
      OneMore(part.added, k);
      NotListed(plus, h);
      if h !in plus {
        Appended(plus, h);
        plus := plus + [h];
      }
    }
    assert part.added[..|part.added|] == part.added;
  }

  /** One deletion more, of a handle deleted before in the part or not. */
  lemma DeletedNext(plus0: set<nat>, minus0: set<nat>, done: set<nat>, twice: set<nat>, h: nat)
    requires twice <= done
    ensures var done', twice' := done + {h}, twice + if h in done then {h} else {};
      var plus, minus := plus0 - done, minus0 + (done - (plus0 - twice));
      && plus0 - done' == plus - {h}
      && minus0 + (done' - (plus0 - twice')) == if h in plus then minus else minus + {h}
  {
  }

  lemma NothingDone(list: seq<nat>)
    ensures Elements(list[..0]) == {} && Repeated(list[..0]) == {} && forall more: seq<nat> :: Elements(more[..0]) == {}
  {
    NoneRepeated(list[..0]);
  }

  lemma WithoutElements(list: seq<nat>, h: nat)
    ensures Elements(Without(list, h)) == Elements(list) - {h}
  {
  }

  lemma RepeatedNext(list: seq<nat>, k: nat)
    requires k < |list|
    ensures Repeated(list[..k]) <= Elements(list[..k])
    ensures Repeated(list[..k + 1]) == Repeated(list[..k]) + if list[k] in Elements(list[..k]) then {list[k]} else {}
  {
    var now, next := list[..k], list[..k + 1];
    assert next == now + [list[k]];
    forall h | h in Repeated(now) ensures h in Repeated(next) {
      var i, j :| 0 <= i < j < |now| && now[i] == h && now[j] == h;
      assert next[i] == h && next[j] == h;
    }
    forall h | h in Repeated(next) && h != list[k] ensures h in Repeated(now) {
      var i, j :| 0 <= i < j < |next| && next[i] == h && next[j] == h;
      assert now[i] == h && now[j] == h;
    }
    if list[k] in Elements(now) {
      var i :| 0 <= i < |now| && now[i] == list[k];
      assert next[i] == list[k] && next[k] == list[k];
    }
  }

  lemma OneMore(list: seq<nat>, k: nat)
    requires k < |list|
    ensures Elements(list[..k + 1]) == Elements(list[..k]) + {list[k]}
    ensures Distinct(list) ==> list[k] !in Elements(list[..k])
  {
  }

  lemma Appended(list: seq<nat>, h: nat)
    ensures Elements(list + [h]) == Elements(list) + {h}
    ensures Distinct(list) && h !in list ==> Distinct(list + [h])
  {
  }

  // ── one operation ──

  predicate IsLayout(owner: string) {
    !("block:" <= owner)
  }

  /** The live entities of layouts and named blocks, and the next handle the database issues. */
  datatype Drawing = Drawing(owners: map<nat, string>, seed: nat)

  /** One call: handles are issued in order and never again, and no entity changes its owner. */
  predicate Follows(before: Drawing, after: Drawing) {
    && before.seed <= after.seed
    && (forall h | h in before.owners :: h < before.seed) && (forall h | h in after.owners :: h < after.seed)
    && (forall h | h in after.owners ::
          if h < before.seed then h in before.owners && after.owners[h] == before.owners[h] else h !in before.owners)
  }

  function Gone(before: map<nat, string>, after: map<nat, string>): set<nat> {
    set h | h in before && h !in after
  }

  function Owned(handles: set<nat>, owners: map<nat, string>, owner: string): set<nat> {
    set h | h in handles && h in owners && owners[h] == owner
  }

  function OnLayouts(handles: set<nat>, owners: map<nat, string>): set<nat> {
    set h | h in handles && h in owners && !("block:" <= owners[h])
  }

  /** The counts by owner of two sets of handles. */
  ghost predicate Tallied(counts: map<string, Count>, plus: set<nat>, plusOwners: map<nat, string>, minus: set<nat>, minusOwners: map<nat, string>) {
    forall owner :: CountOf(counts, owner) == Count(|Owned(plus, plusOwners, owner)|, |Owned(minus, minusOwners, owner)|)
  }

  /** The full difference of two maps: what a summary of the call must say. */
  ghost predicate Difference(
    before: map<nat, string>, after: map<nat, string>, added: seq<nat>, deleted: seq<nat>, counts: map<string, Count>)
  {
    && Distinct(added) && Distinct(deleted)
    && Elements(added) == OnLayouts(Gone(after, before), after) && Elements(deleted) == OnLayouts(Gone(before, after), before)
    && Tallied(counts, Gone(after, before), after, Gone(before, after), before)
  }

  /** `_bump`. */
  function Bumped(counts: map<string, Count>, owner: string, added: nat, deleted: nat): map<string, Count> {
    var was := CountOf(counts, owner);
    counts[owner := Count(was.added + added, was.deleted + deleted)]
  }

  lemma OwnedNext(done: set<nat>, h: nat, owners: map<nat, string>, owner: string)
    requires h !in done && h in owners
    ensures |Owned(done + {h}, owners, owner)| == |Owned(done, owners, owner)| + if owners[h] == owner then 1 else 0
  {
    if owners[h] == owner {
      assert Owned(done + {h}, owners, owner) == Owned(done, owners, owner) + {h};
    } else {
      assert Owned(done + {h}, owners, owner) == Owned(done, owners, owner);
    }
  }

  lemma TalliedAdded(
    counts: map<string, Count>, plus: set<nat>, plusOwners: map<nat, string>, minus: set<nat>, minusOwners: map<nat, string>, h: nat)
    requires Tallied(counts, plus, plusOwners, minus, minusOwners) && h !in plus && h in plusOwners
    ensures Tallied(Bumped(counts, plusOwners[h], 1, 0), plus + {h}, plusOwners, minus, minusOwners)
  {
    hide Owned;
    forall owner {
      OwnedNext(plus, h, plusOwners, owner);
    }
  }

  lemma TalliedDeleted(
    counts: map<string, Count>, plus: set<nat>, plusOwners: map<nat, string>, minus: set<nat>, minusOwners: map<nat, string>, h: nat)
    requires Tallied(counts, plus, plusOwners, minus, minusOwners) && h !in minus && h in minusOwners
    ensures Tallied(Bumped(counts, minusOwners[h], 0, 1), plus, plusOwners, minus + {h}, minusOwners)
  {
    hide Owned;
    forall owner {
      OwnedNext(minus, h, minusOwners, owner);
    }
  }

  lemma TalliedNone(plusOwners: map<nat, string>, minusOwners: map<nat, string>)
    ensures Tallied(map[], {}, plusOwners, {}, minusOwners)
  {
    assert forall owner :: Owned({}, plusOwners, owner) == {} && Owned({}, minusOwners, owner) == {};
  }

  /** A list of a set's handles on layouts, one handle on. */
  lemma ListedNext(list: seq<nat>, handles: set<nat>, owners: map<nat, string>, h: nat)
    requires Distinct(list) && Elements(list) == OnLayouts(handles, owners) && h !in handles && h in owners
    ensures var next := if IsLayout(owners[h]) then list + [h] else list;
      Distinct(next) && Elements(next) == OnLayouts(handles + {h}, owners)
  {
    Appended(list, h);
    assert h !in OnLayouts(handles, owners);
    assert h in list ==> h in Elements(list);
  }

  /** The counting behind the shortcut: with fresh handles and no deletion the spaces are longer by
      exactly what was added; so what is missing is the number deleted. */
  lemma MissingAreDeleted(before: map<nat, string>, after: map<nat, string>)
    ensures |before| + |Gone(after, before)| - |after| == |Gone(before, after)|
  {
    hide Gone;
    SplitInTwo(before, after);
    SplitInTwo(after, before);
    assert before.Keys * after.Keys == after.Keys * before.Keys;
    assert |before| == |before.Keys| && |after| == |after.Keys|;
  }

  lemma SplitInTwo(a: map<nat, string>, b: map<nat, string>)
    ensures |a.Keys| == |a.Keys * b.Keys| + |Gone(a, b)|
  {
    assert a.Keys == a.Keys * b.Keys + Gone(a, b);
  }

  /** The tokens in the payloads of entities, in their order. */
  function Payloads(handles: seq<nat>, tokens: nat -> seq<string>): seq<string>
    decreases |handles|
  {
    if handles == [] then [] else Payloads(handles[..|handles| - 1], tokens) + tokens(handles[|handles| - 1])
  }

  lemma NoFeatures()
    ensures Features([]) == []
  {
  }

  /** What a summary finds when the call is over: the document of the mark, changed; another in its place;
      another document active; or none open. */
  datatype Now = Same(after: Drawing) | Replaced(after: Drawing, walk: seq<nat>) | Switched | Closed

  class EzdxfChangeSets {
    var owners: map<nat, string>
    var order: seq<nat>          // the map's handles as its dictionary lists them
    var cached: bool             // whether there is a map of the active document

    ghost predicate Valid()
      reads this
    {
      Distinct(order) && Elements(order) == owners.Keys
    }

    /** `_change_map_build`: a full walk. */
    constructor (drawing: Drawing, walk: seq<nat>)
      requires Distinct(walk) && Elements(walk) == drawing.owners.Keys
      ensures Valid() && owners == drawing.owners && cached
    {
      owners, order, cached := drawing.owners, walk, true;
    }

    method Take(h: nat, owner: string)
      requires Valid() && h !in owners
      modifies this`owners, this`order
      ensures Valid() && owners == old(owners)[h := owner]
    {
      Appended(order, h);
      assert h in order ==> h in Elements(order);
      owners, order := owners[h := owner], order + [h];
    }

    /** The handles issued since the mark that are alive; the map takes them in. */
    method WalkIssued(after: Drawing, seed: nat, tokens: nat -> seq<string>)
      returns (added: seq<nat>, counts: map<string, Count>, news: nat, features: seq<string>)
      requires Valid() && seed <= after.seed && forall h | h in owners :: h < seed
      modifies this`owners, this`order
      ensures Valid() && owners == old(owners) + Issued(after.owners, seed, after.seed)
      ensures var issued := Handles(after.owners, seed, after.seed);
        && Distinct(added) && Elements(added) == OnLayouts(issued, after.owners) && news == |issued|
        && Tallied(counts, issued, after.owners, {}, old(owners))
        && features == Features(Payloads(added, tokens))
    {
      hide Valid, Distinct, Elements, OnLayouts, Tallied, Issued, Handles, Bumped, IsLayout, Features;
      added, counts, news, features := [], map[], 0, [];
      assert Features(Payloads([], tokens)) == [] by {
        NoFeatures();
      }
      TalliedNone(after.owners, old(owners));
      NothingListed(after.owners);
      NoneIssued(after.owners, seed, owners);
      for h := seed to after.seed
        invariant news == |Handles(after.owners, seed, h)|
        invariant Valid() && owners == old(owners) + Issued(after.owners, seed, h)
        invariant Distinct(added) && Elements(added) == OnLayouts(Handles(after.owners, seed, h), after.owners)
        invariant Tallied(counts, Handles(after.owners, seed, h), after.owners, {}, old(owners))
        invariant features == Features(Payloads(added, tokens))
      {
        IssuedNext(after.owners, seed, h, old(owners));
        if h in after.owners {
          var owner := after.owners[h];
          TalliedAdded(counts, Handles(after.owners, seed, h), after.owners, {}, old(owners), h);
          ListedNext(added, Handles(after.owners, seed, h), after.owners, h);
          Take(h, owner);
          counts := Bumped(counts, owner, 1, 0);
          news := news + 1;
          if IsLayout(owner) {
            features := AddTokens(features, tokens(h), Payloads(added, tokens));
            assert (added + [h])[..|added|] == added;
            added := added + [h];
          }
        }
      }
    }

    /** The map's dead handles out of it. */
    method DropDead(after: Drawing, counts0: map<string, Count>, ghost issued: set<nat>) returns (deleted: seq<nat>, counts: map<string, Count>)
      requires Valid() && (forall h | h in after.owners :: h in owners && owners[h] == after.owners[h])
      requires Tallied(counts0, issued, after.owners, {}, owners)
      modifies this`owners, this`order
      ensures Valid() && owners == after.owners
      ensures var dead := Gone(old(owners), after.owners);
        && Distinct(deleted) && Elements(deleted) == OnLayouts(dead, old(owners))
        && Tallied(counts, issued, after.owners, dead, old(owners))
    {
      hide Distinct, Elements, OnLayouts, Tallied;
      deleted, counts := [], counts0;
      var was, kept := order, [];
      ghost var dead: set<nat> := {};
      NothingListed(owners);
      assert Elements(was[..0]) == {} && owners - {} == owners;
      ListsHandles(was);
      for k := 0 to |was|
        invariant dead == Elements(was[..k]) - after.owners.Keys && (forall h | h in dead :: h in old(owners))
        invariant Distinct(kept) && Elements(kept) == Elements(was[..k]) * after.owners.Keys
        invariant owners == old(owners) - dead
        invariant Distinct(deleted) && Elements(deleted) == OnLayouts(dead, old(owners))
        invariant Tallied(counts, issued, after.owners, dead, old(owners))
      {
        var h := was[k];
        OneMore(was, k);
        if h !in after.owners {
          TalliedDeleted(counts, issued, after.owners, dead, old(owners), h);
          ListedNext(deleted, dead, old(owners), h);
          var owner := owners[h];
          owners := owners - {h};
          counts := Bumped(counts, owner, 0, 1);
          if IsLayout(owner) {
            deleted := deleted + [h];
          }
          dead := dead + {h};
        } else {
          Appended(kept, h);
          NotListed(kept, h);
          kept := kept + [h];
        }
      }
      assert was[..|was|] == was;
      assert dead == Gone(old(owners), after.owners);
      order := kept;
      assert after.owners.Keys <= Elements(was) && owners.Keys == after.owners.Keys;
    }

    /** `_change_summary`: between the mark and now one call ran. The map holds what it held at the mark,
        `seed` and `total` were read then. The deleted are looked for only when the spaces are shorter
        than they should be; and still the summary is the full difference and the map exact. */
    method ChangeSummary(seed: nat, total: nat, after: Drawing, tokens: nat -> seq<string>)
      returns (summary: Summary, ghost added: seq<nat>, ghost deleted: seq<nat>, ghost counts: map<string, Count>)
      requires Valid() && Follows(Drawing(owners, seed), after) && total == |owners|
      modifies this`owners, this`order
      ensures Valid() && owners == after.owners
      ensures Difference(old(owners), after.owners, added, deleted, counts) && Shows(summary, added, deleted, counts)
      ensures summary.complete && FirstFeatures(Payloads(added, tokens), summary.features)
    {
      hide Distinct, Elements, OnLayouts, Tallied, Owned, Issued, Features, Payloads, Shows, FirstFeatures;
      ghost var before := owners;
      ghost var issued := Issued(after.owners, seed, after.seed);
      var plus, tally, news, features := WalkIssued(after, seed, tokens);
      var minus: seq<nat> := [];
      hide Distinct, Elements, OnLayouts, Tallied, Owned;
      IssuedAreNew(before, after, seed);
      MissingAreDeleted(before, after.owners);
      TallyOwners(tally, issued.Keys, after.owners, {}, before, owners);
      if total + news - |after.owners| > 0 {
        minus, tally := DropDead(after, tally, issued.Keys);
        SameOwned(before, before + issued, Gone(before, after.owners));
        TallyOwners(tally, issued.Keys, after.owners, Gone(before, after.owners), before + issued, before);
      } else {
        NothingGone(before, after.owners);
      }
      added, deleted, counts := plus, minus, tally;
      FinishedShows(plus, minus, tally, true, features);
      FeaturesAreFirst(Payloads(added, tokens));
      summary := Finished(plus, minus, tally, true, features);
    }

    /** `_change_replaced`: the document was replaced - an undo, a restore, a rollback - by any other. The
        new one is walked whole, and the map is the new one's. */
    method ChangeReplaced(after: Drawing, walk: seq<nat>)
      returns (summary: Summary, ghost added: seq<nat>, ghost deleted: seq<nat>, ghost counts: map<string, Count>)
      requires Valid() && Distinct(walk) && Elements(walk) == after.owners.Keys
      modifies this`owners, this`order
      ensures Valid() && owners == after.owners
      ensures Difference(old(owners), after.owners, added, deleted, counts) && Shows(summary, added, deleted, counts)
      ensures summary.complete && summary.features == []
    {
      hide Distinct, Elements, OnLayouts, Tallied, Shows;
      var before := owners;
      TalliedNone(after.owners, before);
      var plus, tally := ListMissing(walk, after.owners, before, map[], 1, 0, {}, {});
      var minus: seq<nat>;
      minus, tally := ListMissing(order, before, after.owners, tally, 0, 1, Gone(after.owners, before), {});
      owners, order := after.owners, walk;
      added, deleted, counts := plus, minus, tally;
      FinishedShows(plus, minus, tally, true, []);
      summary := Finished(plus, minus, tally, true, []);
    }

    /** `change_summary` of what it finds. Without the document of the mark the summary says that it is
        incomplete, and a switch drops the map; without a map there is no summary. */
    method Summarize(seed: nat, total: nat, now: Now, tokens: nat -> seq<string>)
      returns (summary: Option<Summary>, ghost added: seq<nat>, ghost deleted: seq<nat>, ghost counts: map<string, Count>)
      requires Valid()
      requires now.Same? ==> Follows(Drawing(owners, seed), now.after) && total == |owners|
      requires now.Replaced? ==> Distinct(now.walk) && Elements(now.walk) == now.after.owners.Keys
      modifies this
      ensures Valid() && (summary.None? <==> !old(cached)) && cached == (old(cached) && !now.Switched?)
      ensures summary.Some? && (now.Switched? || now.Closed?) ==> summary.value == Summary([], [], map[], false, 0, 0, [])
      ensures summary.Some? && !now.Switched? && !now.Closed? ==>
        && owners == now.after.owners && Difference(old(owners), owners, added, deleted, counts)
        && Shows(summary.value, added, deleted, counts) && summary.value.complete
        && FirstFeatures(if now.Same? then Payloads(added, tokens) else [], summary.value.features)
    {
      NoFeatures();
      FeaturesAreFirst([]);
      hide Difference, Features, Payloads, Shows, FirstFeatures;
      added, deleted, counts := [], [], map[];
      if !cached {
        return None, [], [], map[];
      }
      var found;
      match now {
        case Switched =>
          cached := false;
          found := Summary([], [], map[], false, 0, 0, []);
        case Closed =>
          found := Summary([], [], map[], false, 0, 0, []);
        case Replaced(after, walk) =>
          found, added, deleted, counts := ChangeReplaced(after, walk);
        case Same(after) =>
          found, added, deleted, counts := ChangeSummary(seed, total, after, tokens);
      }
      summary := Some(found);
    }
  }

  /** The handles of one map the other has not, listed and counted - as added, or as deleted. */
  method ListMissing(
    walk: seq<nat>, here: map<nat, string>, there: map<nat, string>, counts0: map<string, Count>, one: nat, other: nat,
    ghost plus: set<nat>, ghost minus: set<nat>)
    returns (list: seq<nat>, counts: map<string, Count>)
    requires Distinct(walk) && Elements(walk) == here.Keys && minus == {}
    requires (one == 1 && other == 0 && plus == {}) || (one == 0 && other == 1)
    requires if one == 1 then Tallied(counts0, {}, here, {}, there) else Tallied(counts0, plus, there, {}, here)
    ensures Distinct(list) && Elements(list) == OnLayouts(Gone(here, there), here)
    ensures if one == 1 then Tallied(counts, Gone(here, there), here, {}, there) else Tallied(counts, plus, there, Gone(here, there), here)
  {
    hide Distinct, Elements, OnLayouts, Tallied, Bumped, IsLayout;
    list, counts := [], counts0;
    ghost var done: set<nat> := {};
    NothingListed(here);
    ListsHandles(walk);
    for k := 0 to |walk|
      invariant done == Elements(walk[..k]) - there.Keys && (forall h | h in done :: h in here)
      invariant Distinct(list) && Elements(list) == OnLayouts(done, here)
      invariant if one == 1 then Tallied(counts, done, here, {}, there) else Tallied(counts, plus, there, done, here)
    {
      var h := walk[k];
      OneMore(walk, k);
      if h !in there {
        if one == 1 {
          TalliedAdded(counts, done, here, {}, there, h);
        } else {
          TalliedDeleted(counts, plus, there, done, here, h);
        }
        ListedNext(list, done, here, h);
        counts := Bumped(counts, here[h], one, other);
        if IsLayout(here[h]) {
          list := list + [h];
        }
        done := done + {h};
      }
    }
    assert walk[..|walk|] == walk;
    assert done == Gone(here, there);
  }

  /** The live entities whose handles were issued from `lo` up to `hi`. */
  function Issued(owners: map<nat, string>, lo: nat, hi: nat): map<nat, string> {
    map h | h in owners && lo <= h < hi :: owners[h]
  }

  function Handles(owners: map<nat, string>, lo: nat, hi: nat): set<nat> {
    Issued(owners, lo, hi).Keys
  }

  lemma NoneIssued(owners: map<nat, string>, lo: nat, before: map<nat, string>)
    ensures Handles(owners, lo, lo) == {} && before + Issued(owners, lo, lo) == before
  {
  }

  lemma IssuedNext(owners: map<nat, string>, lo: nat, h: nat, before: map<nat, string>)
    requires lo <= h && forall x | x in before :: x < lo
    ensures h !in Handles(owners, lo, h) && h !in before + Issued(owners, lo, h)
    ensures if h in owners then
              && Handles(owners, lo, h + 1) == Handles(owners, lo, h) + {h}
              && |Handles(owners, lo, h + 1)| == |Handles(owners, lo, h)| + 1
              && before + Issued(owners, lo, h + 1) == (before + Issued(owners, lo, h))[h := owners[h]]
            else Issued(owners, lo, h + 1) == Issued(owners, lo, h) && Handles(owners, lo, h + 1) == Handles(owners, lo, h)
  {
    hide Issued, Handles;
    HandlesNext(owners, lo, h);
    TakenNext(owners, lo, h, before);
    if h in owners {
      assert |Handles(owners, lo, h) + {h}| == |Handles(owners, lo, h)| + 1;
    }
  }

  lemma HandlesNext(owners: map<nat, string>, lo: nat, h: nat)
    requires lo <= h
    ensures h !in Handles(owners, lo, h)
    ensures Handles(owners, lo, h + 1) == if h in owners then Handles(owners, lo, h) + {h} else Handles(owners, lo, h)
  {
  }

  lemma TakenNext(owners: map<nat, string>, lo: nat, h: nat, before: map<nat, string>)
    requires lo <= h && forall x | x in before :: x < lo
    ensures h !in before + Issued(owners, lo, h)
    ensures h in owners ==> before + Issued(owners, lo, h + 1) == (before + Issued(owners, lo, h))[h := owners[h]]
    ensures h !in owners ==> Issued(owners, lo, h + 1) == Issued(owners, lo, h)
  {
  }

  lemma IssuedAreNew(before: map<nat, string>, after: Drawing, seed: nat)
    requires Follows(Drawing(before, seed), after)
    ensures var issued := Issued(after.owners, seed, after.seed);
      && issued.Keys == Handles(after.owners, seed, after.seed) == Gone(after.owners, before)
      && Gone(before + issued, after.owners) == Gone(before, after.owners)
      && forall h | h in after.owners :: h in before + issued && (before + issued)[h] == after.owners[h]
  {
  }

  lemma NothingGone(before: map<nat, string>, after: map<nat, string>)
    requires |Gone(before, after)| == 0
    ensures Gone(before, after) == {} && OnLayouts({}, before) == {} == Elements([]) && Distinct([])
    ensures (forall h | h in before && h in after :: before[h] == after[h]) ==> before + (map h | h in after && h !in before :: after[h]) == after
  {
    assert forall h | h in before :: h in Gone(before, after) || h in after;
  }

  /** Counts read the owners of the handles counted only. */
  lemma TallyOwners(counts: map<string, Count>, plus: set<nat>, plusOwners: map<nat, string>, minus: set<nat>, a: map<nat, string>, b: map<nat, string>)
    requires Tallied(counts, plus, plusOwners, minus, a)
    requires forall h | h in minus :: (h in a <==> h in b) && (h in a ==> a[h] == b[h])
    ensures Tallied(counts, plus, plusOwners, minus, b)
  {
    SameOwned(a, b, minus);
    hide Owned;
  }

  lemma NothingListed(owners: map<nat, string>)
    ensures OnLayouts({}, owners) == {} == Elements([]) && Distinct([])
  {
  }

  lemma ListsHandles(list: seq<nat>)
    ensures forall k | 0 <= k < |list| :: list[k] in Elements(list)
    ensures Elements(list[..0]) == {}
  {
  }

  lemma NotListed(list: seq<nat>, h: nat)
    ensures h in list <==> h in Elements(list)
  {
  }

  lemma SameOwned(a: map<nat, string>, b: map<nat, string>, handles: set<nat>)
    requires forall h | h in handles :: (h in a <==> h in b) && (h in a ==> a[h] == b[h])
    ensures OnLayouts(handles, a) == OnLayouts(handles, b) && forall owner :: Owned(handles, a, owner) == Owned(handles, b, owner)
  {
  }
}
