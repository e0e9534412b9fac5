/** Query roots: adopting a chain, bounding its head, and reading only the first match. */
module ColaRoot {
  import opened Options
  import opened Keys
  import opened StableMerge
  import opened Frontier
  import opened ColaSpec
  import opened SampleCursors
  import opened ColaBuilder
  import opened QueryContexts
  import opened ColaSearch
  import opened ColaQuery

  /** Sample counts agree with the targets, all along the main chain. */
  predicate CountsAgree(index: Index, K: nat)
    requires K > 0
  {
    && |BorrowedKeys(index, 0)| == (if index.main.None? then 0 else GroupCount(index.main.value.count, K))
    && |BorrowedKeys(index, 1)| == (if index.secondary.None? then 0 else GroupCount(|index.secondary.value.keys|, K))
  }

  predicate ChainAgrees(current: Option<Index>, K: nat)
    requires K > 0
    decreases current
  {
    current.Some? ==> CountsAgree(current.value, K) && ChainAgrees(current.value.main, K)
  }

  /** The ordinals below b are exactly those whose group begins inside a target of n entries. */
  ghost predicate SampledInside(b: nat, n: nat, K: nat) {
    forall j: nat {:trigger Times(j, K)} :: j < b <==> Times(j, K) < n
  }

  lemma GroupsAre(b: nat, n: nat, K: nat)
    requires K > 0
    ensures b == GroupCount(n, K) <==> SampledInside(b, n, K)
  {
    forall j: nat ensures j < GroupCount(n, K) <==> Times(j, K) < n { GroupIndex(j, n, K); }
    if b < GroupCount(n, K) { assert Times(b, K) < n; }
    if GroupCount(n, K) < b { assert !(Times(GroupCount(n, K), K) < n); }
  }

  /** Every sample of a node names a group that begins inside its target, and every such group is sampled. */
  ghost predicate RoutesInside(node: Index, K: nat) {
    && SampledInside(|BorrowedKeys(node, 0)|, if node.main.None? then 0 else node.main.value.count, K)
    && SampledInside(|BorrowedKeys(node, 1)|, if node.secondary.None? then 0 else |node.secondary.value.keys|, K)
  }

  lemma CountsAre(node: Index, K: nat)
    requires K > 0
    ensures CountsAgree(node, K) <==> RoutesInside(node, K)
  {
    hide SampledInside;
    assert GroupCount(0, K) == 0;
    GroupsAre(|BorrowedKeys(node, 0)|, if node.main.None? then 0 else node.main.value.count, K);
    GroupsAre(|BorrowedKeys(node, 1)|, if node.secondary.None? then 0 else |node.secondary.value.keys|, K);
  }

  /** What adoption establishes for the whole chain: no sampled ordinal leads outside its target, and no group of a
      target is without its sample. */
  lemma {:induction false} AdoptedRoutes(current: Option<Index>, K: nat)
    requires K > 0
    ensures ChainAgrees(current, K) <==> forall node | node in Chain(current) :: RoutesInside(node, K)
    decreases current
  {
    if current.Some? {
      hide RoutesInside, CountsAgree;
      AdoptedRoutes(current.value.main, K);
      CountsAre(current.value, K);
      assert Chain(current)[0] == current.value;
    }
  }

  /** `adopt_prepared`: the head is present and bounded, and every node's sample counts fit its targets. */
  method AdoptPrepared(source: Option<Index>, K: nat) returns (ok: bool)
    requires K > 0
    ensures ok <==> source.Some? && source.value.count <= K && ChainAgrees(source, K)
  {
    if source.None? || source.value.count > K { return false; }
    var current := source;
    while current.Some?
      invariant ChainAgrees(source, K) <==> ChainAgrees(current, K)
      decreases Depth(current)
    {
      if !CountsAgree(current.value, K) { return false; }
      current := current.value.main;
    }
    return true;
  }

  /** Every trusted chain with a bounded head is adopted. */
  lemma {:induction false} WellFormedAgrees(current: Option<Index>, K: nat)
    requires K > 0 && (current.Some? ==> WellFormed(current.value, K))
    ensures ChainAgrees(current, K)
    decreases current
  {
    if current.Some? {
      SamplesOf(current.value, K);
      WellFormedAgrees(current.value.main, K);
    }
  }

  /** `first_value`: the value of the first match of the cascade, without visiting the rest of the chain. */
  method FirstValue(root: Index, K: nat, query: Key) returns (value: Option<Value>)
    requires K > 0 && WellFormed(root, K) && root.count <= K
    ensures value == if Matches(root, query) == [] then None else Some(Matches(root, query)[0].value)
  {
    if root.count == 0 {
      NothingDownstream(root, K, query);
      return None;
    }
    var current, group, context := Some(root), 0, Fresh(query);
    ghost var boundary: Key := [];
    FirstStand(root, K, boundary, context);
    hide Stands, WellFormed, Matches, Lookup;
    while current.Some?
      invariant Stands(current, K, group, boundary, context) && context.query == query
      invariant MatchesFrom(current, query) == Matches(root, query)
      decreases Depth(current)
    {
      var slots, next, nextGroup, nextContext, nextBoundary :=
        VisitStep(current.value, K, group, context, boundary);
      if slots[0].Some? { return Some(slots[0].value.value); }
      if slots[1].Some? { return Some(slots[1].value.value); }
      current, group, context, boundary := next, nextGroup, nextContext, nextBoundary;
    }
    return None;
  }

  /** A root's single group brackets every query. */
  lemma FirstStand(root: Index, K: nat, boundary: Key, context: Context)
    requires K > 0 && WellFormed(root, K) && 0 < root.count <= K && boundary == [] && context == Fresh(context.query)
    ensures Stands(Some(root), K, 0, boundary, context)
  {
    EmptyIsLeast(context.query);
  }

  /** `adopt_native`: drive a builder to its end. */
  method AdoptNative(native: Run, main: Option<Index>, secondary: Option<Run>, K: nat, unit: nat)
    returns (index: Index)
    requires TrustedSources(native, main, secondary, K) && unit > 0
    ensures WellFormed(index, K)
    ensures index.native == native && index.main == main && index.secondary == secondary
  {
    hide ColaIndexBuilder.Valid, ColaIndexBuilder.Admitted, WellFormed, TrustedSources;
    var builder := new ColaIndexBuilder(K, native, main, secondary);
    var done := builder.Done();
    while !done
      invariant builder.Valid() && !builder.finished
      invariant done <==> builder.book.count == |builder.items|
      decreases |builder.items| - builder.book.count
    {
      var _ := builder.Step(4096);
      done := builder.Done();
    }
    index := builder.Finish(unit);
  }

  const EmptyRun := Run([], [], [])

  /** A routing node with no native entries adds nothing and hides nothing. */
  lemma EmptyNodeMatches(index: Index, query: Key)
    requires index.native == EmptyRun && index.secondary.None?
    ensures Matches(index, query) == MatchesFrom(index.main, query)
  {
  }

  /** The size of an empty node over a target is its sample count. */
  lemma EmptyNodeCount(index: Index, K: nat)
    requires K > 0 && WellFormed(index, K) && index.native == EmptyRun && index.secondary.None?
    ensures index.count == if index.main.None? then 0 else GroupCount(index.main.value.count, K)
  {
    SamplesOf(index, K);
    LengthIsTotal(StreamsOf(index), Augmented(index));
  }

  lemma GroupCountShrinks(n: nat, K: nat)
    requires K > 1 && n > K
    ensures GroupCount(n, K) < n
  {
    GroupIndex(n - 1, n, K);
    TimesAtLeast(n - 1, K);
  }

  lemma {:induction false} TimesAtLeast(g: nat, K: nat)
    requires K > 1
    ensures Times(g, K) >= 2 * g
  {
    if g > 0 { TimesAtLeast(g - 1, K); }
  }

  /** What the secondary of a root holds. */
  ghost function FoundFirst(node: Index, secondary: Option<Run>, query: Key): seq<Match> {
    if secondary.None? then [] else RunMatch(node, true, secondary.value, query)
  }

  lemma RootMatches(node: Index, query: Key)
    requires node.native == EmptyRun
    ensures Matches(node, query) == FoundFirst(node, node.secondary, query) + MatchesFrom(node.main, query)
  {
  }

  /** `prepare_root`: include both level-zero arrays and add empty routing nodes until one group suffices. The
      root finds exactly the secondary's match followed by everything the main chain holds. */
  method PrepareRoot(main: Option<Index>, secondary: Option<Run>, K: nat, unit: nat)
    returns (root: Index, ghost node: Index)
    requires K >= 3 && unit > 0
    requires (main.Some? ==> WellFormed(main.value, K)) && (secondary.Some? ==> NativeRun(secondary.value))
    ensures WellFormed(root, K) && root.count <= K
    ensures main.Some? && secondary.None? && main.value.count <= K ==> root == main.value
    ensures secondary.Some? ==> node.secondary == secondary
    ensures forall query :: Matches(root, query) == FoundFirst(node, secondary, query) + MatchesFrom(main, query)
  {
    if main.Some? && secondary.None? && main.value.count <= K { return main.value, main.value; }
    hide WellFormed, NativeRun;
    root := AdoptNative(EmptyRun, main, secondary, K, unit);
    node := root;
    forall query ensures Matches(node, query) == FoundFirst(node, secondary, query) + MatchesFrom(main, query) {
      RootMatches(node, query);
    }
    hide Matches, MatchesFrom, FoundFirst;
    while root.count > K
      invariant WellFormed(root, K) && forall query :: Matches(root, query) == Matches(node, query)
      decreases root.count
    {
      var next := AdoptNative(EmptyRun, Some(root), None, K, unit);
      EmptyNodeCount(next, K);
      GroupCountShrinks(root.count, K);
      forall query ensures Matches(next, query) == Matches(root, query) { EmptyNodeMatches(next, query); }
      root := next;
    }
  }
}
