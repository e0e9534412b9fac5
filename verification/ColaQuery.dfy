/** The cascaded point query (cola_query_cursor, first_value). */
module ColaQuery {
  // One bounded window per node, from the head of a main chain to its end, finds the query in exactly the native
  // arrays that hold it.

  import opened Options
  import opened Keys
  import opened StableMerge
  import opened Frontier
  import opened ColaSpec
  import opened QueryContexts
  import opened ColaSearch

  /** A match names the main node that yielded it; a secondary match lies in that node's secondary target. */
  datatype Match = Match(source: Index, secondary: bool, ordinal: nat, value: Value)

  // ----- the simple form: a full search of every array

  ghost function Lookup(keys: seq<Key>, query: Key): (hit: Option<nat>)
    ensures IsFound(keys, query, hit)
  {
    if query in keys then
      var x :| 0 <= x < |keys| && keys[x] == query;
      Some(x)
    else None
  }

  lemma LookupUnique(keys: seq<Key>, query: Key, hit: Option<nat>)
    requires Increasing(keys) && IsFound(keys, query, hit)
    ensures hit == Lookup(keys, query)
  {
    var found := Lookup(keys, query);
    if hit.Some? && found.Some? {
      if hit.value < found.value { IncreasingDistinct(keys, hit.value, found.value); }
      if found.value < hit.value { IncreasingDistinct(keys, found.value, hit.value); }
    }
  }

  ghost function RunMatch(source: Index, secondary: bool, run: Run, query: Key): seq<Match> {
    var hit := Lookup(run.keys, query);
    if hit.None? || hit.value >= |run.values| then [] else [Match(source, secondary, hit.value, run.values[hit.value])]
  }

  ghost function NodeMatches(index: Index, query: Key): seq<Match> {
    RunMatch(index, false, index.native, query)
    + (if index.secondary.None? then [] else RunMatch(index, true, index.secondary.value, query))
  }

  /** Every native array of the chain that holds the query, head first, main before secondary. */
  ghost function Matches(index: Index, query: Key): seq<Match>
    decreases index
  {
    NodeMatches(index, query)
    + (if index.main.None? then [] else Matches(index.main.value, query))
  }

  ghost function MatchesFrom(current: Option<Index>, query: Key): seq<Match> {
    if current.None? then [] else Matches(current.value, query)
  }

  // ----- routes

  lemma SamplesOf(index: Index, K: nat)
    requires K > 0 && WellFormed(index, K)
    ensures |index.borrowed| == 2 && Nondecreasing(index.borrowed[0].keys) && Nondecreasing(index.borrowed[1].keys)
    ensures index.main.None? ==> index.borrowed[0].keys == []
    ensures index.main.Some? ==> WellFormed(index.main.value, K)
    ensures index.secondary.Some? ==> NativeRun(index.secondary.value)
    ensures index.main.Some? ==> index.borrowed[0].keys == EveryKth(ItemKeys(Augmented(index.main.value)), K)
    ensures index.main.Some? ==> index.main.value.count == |Augmented(index.main.value)|
    ensures index.secondary.None? ==> index.borrowed[1].keys == []
    ensures index.secondary.Some? ==> index.borrowed[1].keys == EveryKth(index.secondary.value.keys, K)
  {
    WellFormedSorted(index, K);
    assert StreamsOf(index)[1] == index.borrowed[0].keys && StreamsOf(index)[2] == index.borrowed[1].keys;
  }

  function GroupOf(ordinal: nat, K: nat): nat
    requires K > 0
  {
    ordinal / K
  }

  /** A sample ordinal is divisible by K, names group `ordinal`, and lies inside its target. */
  lemma SampleOrdinal(keys: seq<Key>, K: nat, j: nat)
    requires K > 0 && j < |EveryKth(keys, K)|
    ensures Times(j, K) % K == 0 && Times(j, K) / K == j && Times(j, K) < |keys|
    ensures EveryKth(keys, K)[j] == keys[Times(j, K)]
    ensures Times(j, K) + K < |keys| ==> j + 1 < |EveryKth(keys, K)| && EveryKth(keys, K)[j + 1] == keys[Times(j, K) + K]
  {
    TimesIs(j, K);
    MulDiv(j, K);
    assert EveryKth(keys, K)[j] == SampleAt(keys, K, j);
    GroupIndex(j + 1, |keys|, K);
    if j + 1 < |EveryKth(keys, K)| { assert EveryKth(keys, K)[j + 1] == SampleAt(keys, K, j + 1); }
  }

  lemma MulDiv(j: nat, K: nat)
    requires K > 0
    ensures (j * K) % K == 0 && (j * K) / K == j
  {
    var q, m := (j * K) / K, (j * K) % K;
    assert j * K == q * K + m;
    if q < j { TimesIs(q, K); TimesIs(j, K); TimesLess(q, j, K); }
    if j < q { TimesIs(q, K); TimesIs(j, K); TimesLess(j, q, K); }
  }

  /** The predecessor on the main route leads to the target's bracketing group. */
  lemma RouteToMain(index: Index, K: nat, query: Key, p: Predecessor)
    requires K > 0 && WellFormed(index, K)
    requires PredecessorExact(index.borrowed[0].keys, index.flags[0], K, query, Some(p))
    ensures index.main.Some? && p.targetOrdinal % K == 0 && p.targetOrdinal < index.main.value.count
    ensures Routed(index.main.value, K, GroupOf(p.targetOrdinal, K), index.borrowed[0].keys[p.ordinal], query)
  {
    hide WellFormed, Nondecreasing, Augmented, EveryKth, ItemKeys;
    SamplesOf(index, K);
    var items := Augmented(index.main.value);
    SampleOrdinal(ItemKeys(items), K, p.ordinal);
  }

  /** The predecessor on the secondary route leads to the leaf's bracketing window. */
  lemma RouteToSecondary(index: Index, K: nat, query: Key, p: Predecessor)
    requires K > 0 && WellFormed(index, K)
    requires PredecessorExact(index.borrowed[1].keys, index.flags[1], K, query, Some(p))
    ensures index.secondary.Some? && p.targetOrdinal % K == 0
    ensures var keys := index.secondary.value.keys;
            && p.targetOrdinal < |keys|
            && WindowOf(keys, p.targetOrdinal, Min(p.targetOrdinal + K, |keys|), keys[p.targetOrdinal], query)
            && index.borrowed[1].keys[p.ordinal] == keys[p.targetOrdinal]
  {
    SamplesOf(index, K);
    var keys := index.secondary.value.keys;
    SampleOrdinal(keys, K, p.ordinal);
    IncreasingNondecreasing(keys);
    var first, last := p.targetOrdinal, Min(p.targetOrdinal + K, |keys|);
    forall x | 0 <= x < first ensures Le(keys[x], keys[first]) {}
    forall x | first <= x < |keys| ensures Le(keys[first], keys[x]) {}
    forall x | last <= x < |keys| ensures Lt(query, keys[x]) {
      assert Le(keys[last], keys[x]);
      LcpOrderedMin(query, keys[last], keys[x]);
    }
  }

  lemma NoneAbove(keys: seq<Key>, query: Key)
    requires Nondecreasing(keys) && (|keys| > 0 ==> Lt(query, keys[0]))
    ensures query !in keys
  {
    if query in keys {
      var x :| 0 <= x < |keys| && keys[x] == query;
      assert Le(keys[0], keys[x]);
      OrderTotal(query, keys[0]);
      assert false;
    }
  }

  /** Without a borrowed predecessor the secondary holds nothing at or below the query. */
  lemma NoSecondary(index: Index, K: nat, query: Key)
    requires K > 0 && WellFormed(index, K) && IsPredecessor(index.borrowed[1].keys, query, None)
    ensures index.secondary.Some? ==> RunMatch(index, true, index.secondary.value, query) == []
  {
    SamplesOf(index, K);
    if index.secondary.Some? && |index.secondary.value.keys| > 0 {
      var keys := index.secondary.value.keys;
      GroupIndex(0, |keys|, K);
      SampleOrdinal(keys, K, 0);
      IncreasingNondecreasing(keys);
      NoneAbove(keys, query);
    }
  }

  /** If the query precedes every occurrence of a node, nothing downstream of it can match. */
  lemma {:induction false} NothingDownstream(index: Index, K: nat, query: Key)
    requires K > 0 && WellFormed(index, K)
    requires |Augmented(index)| > 0 ==> Lt(query, Augmented(index)[0].key)
    ensures Matches(index, query) == []
    decreases index
  {
    WellFormedSorted(index, K);
    var items, streams := Augmented(index), StreamsOf(index);
    forall o | 0 <= o < 3 && |streams[o]| > 0 ensures Lt(query, streams[o][0]) {
      LiveIffBefore(streams, items, 0);
      AboveCut(streams, items, o, 0, 0, 0);
      LcpOrderedMin(query, items[0].key, streams[o][0]);
    }
    assert streams[0] == index.native.keys && streams[1] == index.borrowed[0].keys
        && streams[2] == index.borrowed[1].keys;
    NoneAbove(index.native.keys, query);
    NoSecondary(index, K, query);
    NoMain(index, K, query);
  }

  /** Without a borrowed predecessor on the main route, every downstream key exceeds the query. */
  lemma {:induction false} NoMain(index: Index, K: nat, query: Key)
    requires K > 0 && WellFormed(index, K) && IsPredecessor(index.borrowed[0].keys, query, None)
    ensures index.main.Some? ==> Matches(index.main.value, query) == []
    decreases index, 0
  {
    SamplesOf(index, K);
    if index.main.Some? {
      var items := Augmented(index.main.value);
      if |items| > 0 {
        GroupIndex(0, |items|, K);
        SampleOrdinal(ItemKeys(items), K, 0);
      }
      NothingDownstream(index.main.value, K, query);
    }
  }

  // ----- one node visit

  /** `cola_search_secondary`: the leaf's K-window named by the predecessor. Its route error cannot be taken. */
  method SearchSecondary(leaf: Run, K: nat, p: Predecessor) returns (hit: Option<nat>)
    requires K > 0 && NativeRun(leaf) && p.targetOrdinal < |leaf.keys| && p.targetOrdinal % K == 0
    requires WindowOf(leaf.keys, p.targetOrdinal, Min(p.targetOrdinal + K, |leaf.keys|),
                      leaf.keys[p.targetOrdinal], p.comparison.query)
    requires Describes(p.comparison, leaf.keys[p.targetOrdinal]) && p.comparison.order <= 0
    ensures hit == Lookup(leaf.keys, p.comparison.query)
  {
    var first := p.targetOrdinal;
    var last := first + Min(K, |leaf.keys| - first);
    hit := FindInWindow(leaf, first, last, p.comparison, leaf.keys[first]);
    if hit.None? && p.comparison.query in leaf.keys {
      var x :| 0 <= x < |leaf.keys| && leaf.keys[x] == p.comparison.query;
      MissedEntry(leaf.keys, first, last, leaf.keys[first], p.comparison.query, x);
      assert false;
    }
    LookupUnique(leaf.keys, p.comparison.query, hit);
  }

  datatype Visit = Visit(native: Option<nat>, side: Option<nat>, next: Option<Predecessor>)

  /** Where the cascade continues: the main target's bracketing group, or nowhere with nothing left to find. */
  ghost predicate Continues(index: Index, K: nat, query: Key, next: Option<Predecessor>)
    requires K > 0 && WellFormed(index, K)
  {
    if next.None? then index.main.None? || Matches(index.main.value, query) == []
    else
      var p := next.value;
      && index.main.Some? && p.ordinal < |index.borrowed[0].keys|
      && Routed(index.main.value, K, GroupOf(p.targetOrdinal, K), index.borrowed[0].keys[p.ordinal], query)
      && Describes(p.comparison, index.borrowed[0].keys[p.ordinal])
      && p.comparison.query == query
  }

  /** Some sampled key of the main target is at or below the query: only then can the rest of the chain hold it. */
  ghost predicate Onward(index: Index, query: Key) {
    |index.borrowed| > 0 && exists b | 0 <= b < |index.borrowed[0].keys| :: Le(index.borrowed[0].keys[b], query)
  }

  lemma OnwardIs(index: Index, K: nat, query: Key, p: Option<nat>)
    requires K > 0 && WellFormed(index, K) && IsPredecessor(index.borrowed[0].keys, query, p)
    ensures p.Some? <==> Onward(index, query)
  {
    SamplesOf(index, K);
    var keys := index.borrowed[0].keys;
    if p.None? {
      forall b | 0 <= b < |keys| ensures !Le(keys[b], query) {
        assert Le(keys[0], keys[b]);
        LcpOrderedMin(query, keys[0], keys[b]);
        OrderTotal(query, keys[b]);
        OrderTotal(keys[b], query);
      }
    }
  }

  /** How many nodes the walk for a key passes from here, matches or not. */
  ghost function Walk(current: Option<Index>, query: Key): nat
    decreases current
  {
    if current.None? then 0 else 1 + (if Onward(current.value, query) then Walk(current.value.main, query) else 0)
  }

  lemma WalkNext(index: Index, query: Key, next: Option<Index>)
    requires next == if Onward(index, query) then index.main else None
    ensures Walk(Some(index), query) == 1 + Walk(next, query)
  {
  }

  /** One main node: its native match, its secondary's match, and the onward route, all exact. None of the
      route errors can be taken. */
  method VisitNode(index: Index, K: nat, g: nat, context: Context, ghost boundary: Key) returns (v: Visit)
    requires K > 0 && WellFormed(index, K)
    requires Routed(index, K, g, boundary, context.query) && Describes(context, boundary)
    ensures v.native == Lookup(index.native.keys, context.query)
    ensures index.secondary.Some? ==> v.side == Lookup(index.secondary.value.keys, context.query)
    ensures index.secondary.None? ==> v.side.None?
    ensures Continues(index, K, context.query, v.next) && (v.next.Some? <==> Onward(index, context.query))
  {
    WellFormedNode(index, K);
    var result := SearchWindow(index, K, g, context, boundary);
    LookupUnique(index.native.keys, context.query, result.native);
    var side := None;
    if result.predecessors[1].Some? {
      RouteToSecondary(index, K, context.query, result.predecessors[1].value);
      side := SearchSecondary(index.secondary.value, K, result.predecessors[1].value);
    } else {
      NoSecondary(index, K, context.query);
    }
    OnwardIs(index, K, context.query, if result.predecessors[0].None? then None else Some(result.predecessors[0].value.ordinal));
    if result.predecessors[0].Some? {
      RouteToMain(index, K, context.query, result.predecessors[0].value);
      assert index.main.Some? && result.predecessors[0].value.targetOrdinal % K == 0
             && result.predecessors[0].value.targetOrdinal < index.main.value.count;
    } else {
      NoMain(index, K, context.query);
    }
    v := Visit(result.native, side, result.predecessors[0]);
  }

  /** The pending slots a visit fills. */
  function Slots(index: Index, v: Visit): (slots: seq<Option<Match>>)
    requires v.native.Some? ==> v.native.value < |index.native.values|
    requires v.side.Some? ==> index.secondary.Some? && v.side.value < |index.secondary.value.values|
    ensures |slots| == 2
  {
    [if v.native.None? then None else Some(Match(index, false, v.native.value, index.native.values[v.native.value])),
     if v.side.None? then None else Some(Match(index, true, v.side.value, index.secondary.value.values[v.side.value]))]
  }

  function Listed(slots: seq<Option<Match>>): seq<Match>
    requires |slots| == 2
  {
    (if slots[0].Some? then [slots[0].value] else []) + (if slots[1].Some? then [slots[1].value] else [])
  }

  lemma SlotsAreNodeMatches(index: Index, K: nat, query: Key, v: Visit)
    requires K > 0 && WellFormed(index, K)
    requires v.native == Lookup(index.native.keys, query)
    requires v.side == if index.secondary.None? then None else Lookup(index.secondary.value.keys, query)
    ensures v.native.Some? ==> v.native.value < |index.native.values|
    ensures v.side.Some? ==> index.secondary.Some? && v.side.value < |index.secondary.value.values|
    ensures Listed(Slots(index, v)) == NodeMatches(index, query)
  {
  }

  /** Where a cursor stands after a visit. */
  ghost predicate Stands(current: Option<Index>, K: nat, group: nat, boundary: Key, context: Context)
    requires K > 0
  {
    current.Some? ==>
      && WellFormed(current.value, K)
      && Routed(current.value, K, group, boundary, context.query) && Describes(context, boundary)
  }

  lemma StandsHere(index: Index, K: nat, group: nat, boundary: Key, context: Context)
    requires K > 0 && Stands(Some(index), K, group, boundary, context)
    ensures WellFormed(index, K) && Routed(index, K, group, boundary, context.query) && Describes(context, boundary)
  {
  }

  lemma StandsNowhere(K: nat, group: nat, boundary: Key, context: Context)
    requires K > 0
    ensures Stands(None, K, group, boundary, context)
  {
  }

  /** A visit splits what remains into its own two slots and what the onward route still holds. */
  lemma VisitPreserves(index: Index, K: nat, query: Key, v: Visit)
    requires K > 0 && WellFormed(index, K)
    requires v.native == Lookup(index.native.keys, query)
    requires v.side == if index.secondary.None? then None else Lookup(index.secondary.value.keys, query)
    requires Continues(index, K, query, v.next)
    ensures v.native.Some? ==> v.native.value < |index.native.values|
    ensures v.side.Some? ==> index.secondary.Some? && v.side.value < |index.secondary.value.values|
    ensures v.next.Some? ==>
              && index.main.Some? && v.next.value.ordinal < |index.borrowed[0].keys|
              && Stands(index.main, K, GroupOf(v.next.value.targetOrdinal, K),
                        index.borrowed[0].keys[v.next.value.ordinal], v.next.value.comparison)
              && v.next.value.comparison.query == query
    ensures Matches(index, query)
         == Listed(Slots(index, v)) + (if v.next.None? then [] else Matches(index.main.value, query))
  {
    SlotsAreNodeMatches(index, K, query, v);
  }

  /** Visit a node and move to the onward one. */
  method VisitStep(index: Index, K: nat, group: nat, context: Context, ghost boundary: Key)
    returns (slots: seq<Option<Match>>, next: Option<Index>, nextGroup: nat, nextContext: Context,
             ghost nextBoundary: Key)
    requires K > 0 && Stands(Some(index), K, group, boundary, context)
    ensures |slots| == 2 && nextContext.query == context.query
    ensures Stands(next, K, nextGroup, nextBoundary, nextContext) && (next.None? || next == index.main)
    ensures Matches(index, context.query) == Listed(slots) + MatchesFrom(next, context.query)
    ensures Walk(Some(index), context.query) == 1 + Walk(next, context.query)
  {
    hide Stands, Continues, Routed, Describes, WellFormed, Matches, Lookup, Listed, Onward, Walk, MatchesFrom, Slots, GroupOf;
    StandsHere(index, K, group, boundary, context);
    SamplesOf(index, K);
    var v := VisitNode(index, K, group, context, boundary);
    VisitPreserves(index, K, context.query, v);
    slots := Slots(index, v);
    next, nextGroup, nextContext, nextBoundary := None, group, context, boundary;
    StandsNowhere(K, group, boundary, context);
    if v.next.Some? {
      nextGroup := GroupOf(v.next.value.targetOrdinal, K);
      nextContext := v.next.value.comparison;
      nextBoundary := index.borrowed[0].keys[v.next.value.ordinal];
      next := index.main;
    }
    WalkNext(index, context.query, next);
    Remains(index, context.query, slots, next);
  }

  lemma Remains(index: Index, query: Key, slots: seq<Option<Match>>, next: Option<Index>)
    requires |slots| == 2
    requires Matches(index, query) == Listed(slots) + (if next.None? then [] else Matches(next.value, query))
    ensures Matches(index, query) == Listed(slots) + MatchesFrom(next, query)
  {
  }

  /** The nodes of a chain, head first. */
  ghost function Chain(current: Option<Index>): seq<Index>
    decreases current
  {
    if current.None? then [] else [current.value] + Chain(current.value.main)
  }

  function Depth(current: Option<Index>): nat
    decreases current
  {
    if current.None? then 0 else 1 + Depth(current.value.main)
  }

  /** The resumable cursor. `Remaining` is everything it has yet to hand out. */
  class QueryCursor {
    const K: nat
    const query: Key
    var current: Option<Index>
    var context: Context
    var group: nat
    var pending: seq<Option<Match>>
    var failed: bool
    ghost var boundary: Key

    ghost predicate Valid()
      reads this
    {
      |pending| == 2 && Standing()
    }

    ghost predicate Standing()
      reads this`current, this`context, this`group, this`failed, this`boundary
    {
      K > 0 && !failed && context.query == query && Stands(current, K, group, boundary, context)
    }

    ghost function Remaining(): seq<Match>
      requires |pending| == 2
      reads this`pending, this`current
    {
      Listed(pending) + MatchesFrom(current, query)
    }

    predicate HasMatch()
      requires |pending| == 2
      reads this
    {
      pending[0].Some? || pending[1].Some?
    }

    predicate Done()
      requires |pending| == 2
      reads this
    {
      current.None? && !HasMatch()
    }

    /** A root is a head with at most one group; an empty head finds nothing. */
    constructor (root: Index, stride: nat, key: Key)
      requires stride > 0 && WellFormed(root, stride) && root.count <= stride
      ensures Valid() && K == stride && query == key && Remaining() == Matches(root, key)
    {
      K, query := stride, key;
      current := if root.count == 0 then None else Some(root);
      context := Fresh(key);
      group := 0;
      boundary := [];
      pending := [None, None];
      failed := false;
      new;
      EmptyIsLeast(key);
      if root.count == 0 { NothingDownstream(root, stride, key); }
    }

    /** Visit nodes until a match is pending, the budget is spent or the walk is over. No visit changes what remains,
        and the count reported is exactly the nodes passed. */
    method Step(budget: nat) returns (visited: nat)
      requires Valid()
      modifies this
      ensures Valid() && Remaining() == old(Remaining()) && visited <= budget
      ensures old(HasMatch()) ==> visited == 0 && pending == old(pending) && current == old(current)
      ensures visited == budget || HasMatch() || current.None?
      ensures Walk(current, query) + visited == old(Walk(current, query))
      ensures Depth(current) == old(Depth(current)) || Depth(current) + visited <= old(Depth(current))
      ensures budget > 0 && !old(Done()) && !old(HasMatch()) ==> Depth(current) < old(Depth(current))
    {
      if HasMatch() { return 0; }
      visited := 0;
      while current.Some? && visited < budget
        invariant Valid() && Remaining() == old(Remaining()) && visited <= budget && !HasMatch()
        invariant Depth(current) + visited <= old(Depth(current))
        invariant Walk(current, query) + visited == old(Walk(current, query))
      {
        VisitCurrent();
        visited := visited + 1;
        if HasMatch() { return; }
      }
    }

    method VisitCurrent()
      requires Valid() && current.Some? && !HasMatch()
      modifies this
      ensures Valid() && Remaining() == old(Remaining()) && Depth(current) < old(Depth(current))
      ensures Walk(current, query) + 1 == old(Walk(current, query))
    {
      hide Stands, WellFormed, Matches, Walk;
      pending, current, group, context, boundary := VisitStep(current.value, K, group, context, boundary);
    }

    /** Hand out the next match. */
    method TakeMatch() returns (m: Option<Match>)
      requires Valid()
      modifies this`pending
      ensures Valid()
      ensures m.Some? <==> old(HasMatch())
      ensures old(Listed(pending)) == (if m.Some? then [m.value] else []) + Listed(pending)
    {
      var slot := if pending[0].Some? then 0 else 1;
      m := pending[slot];
      ListedDrop(pending, slot);
      pending := pending[slot := None];
    }
  }

  lemma ListedDrop(slots: seq<Option<Match>>, slot: nat)
    requires |slots| == 2 && slot == if slots[0].Some? then 0 else 1
    ensures slots[slot].Some? ==> Listed(slots) == [slots[slot].value] + Listed(slots[slot := None])
    ensures slots[slot].None? ==> slots[slot := None] == slots
  {
  }

  lemma HandOver(found: seq<Match>, m: Match, listed: seq<Match>, rest: seq<Match>)
    ensures found + (([m] + listed) + rest) == (found + [m]) + (listed + rest)
  {
  }

  /** One turn of the caller's loop: take a pending match, or visit one more node. */
  method Pump(cursor: QueryCursor, found: seq<Match>) returns (next: seq<Match>)
    requires cursor.Valid() && !cursor.Done()
    modifies cursor
    ensures cursor.Valid() && next + cursor.Remaining() == found + old(cursor.Remaining())
    ensures Depth(cursor.current) < old(Depth(cursor.current))
            || (Depth(cursor.current) == old(Depth(cursor.current))
                && |Listed(cursor.pending)| < old(|Listed(cursor.pending)|))
  {
    hide WellFormed, Stands, Matches, MatchesFrom, Depth;
    if cursor.HasMatch() {
      var m := cursor.TakeMatch();
      HandOver(found, m.value, Listed(cursor.pending), MatchesFrom(cursor.current, cursor.query));
      next := found + [m.value];
    } else {
      next := found;
      var _ := cursor.Step(1);
    }
  }

  /** Running a cursor to its end yields exactly one match for each native array holding the key, in chain
      order, and nothing else. */
  method Cascade(root: Index, K: nat, query: Key) returns (found: seq<Match>)
    requires K > 0 && WellFormed(root, K) && root.count <= K
    ensures found == Matches(root, query)
  {
    var cursor := new QueryCursor(root, K, query);
    found := [];
    hide WellFormed, Stands, Matches, Listed, Depth;
    while !cursor.Done()
      invariant cursor.Valid() && cursor.K == K && cursor.query == query
      invariant found + cursor.Remaining() == Matches(root, query)
      decreases Depth(cursor.current), |Listed(cursor.pending)|
    {
      found := Pump(cursor, found);
    }
    NothingListed(cursor.pending);
  }

  lemma NothingListed(slots: seq<Option<Match>>)
    requires |slots| == 2 && slots[0].None? && slots[1].None?
    ensures Listed(slots) == []
  {
  }
}
