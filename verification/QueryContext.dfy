/** Comparing a query with front-coded records (profile_query_context). */
module QueryContexts {
  // A context holds the query, its exact common prefix and order with some boundary key at or below it, and that
  // boundary's length when known. Reading a record replaces the boundary by the record's key; no key is rebuilt.

  import opened Options
  import opened Keys
  import opened Frontier
  import opened ColaSpec

  datatype Context = Context(query: Key, common: nat, length: Option<nat>, order: int)

  /** The context describes this boundary. */
  ghost predicate Describes(c: Context, boundary: Key) {
    && c.common == Lcp(boundary, c.query)
    && c.order == Order(boundary, c.query)
    && (c.length.Some? ==> c.length.value == |boundary|)
  }

  /** A fresh context faces the empty boundary. */
  function Fresh(query: Key): (c: Context)
    ensures c.query == query && Describes(c, []) && c.order <= 0
  {
    EmptyIsLeast(query);
    Context(query, 0, Some(0), if query == [] then 0 else -1)
  }

  /** `advance` rejects a record that retains more than the known boundary. */
  predicate Admits(c: Context, retained: nat) {
    c.length.Some? ==> retained <= c.length.value
  }

  /** `advance`: read one record's retained length and literal suffix. */
  function Read(c: Context, retained: nat, suffix: Key): (next: Context)
    requires c.common <= |c.query|
    ensures next.query == c.query
  {
    var full := Some(retained + |suffix|);
    if c.common >= retained then
      var comparison := Compare(suffix, c.query[retained..]);
      Context(c.query, retained + comparison.common, full, comparison.order)
    else
      c.(length := full)
  }

  /** A context at or below the query, read past a record whose retained prefix the boundary shares,
      describes that record's key exactly. */
  lemma ReadDescribes(c: Context, boundary: Key, key: Key, retained: nat)
    requires Describes(c, boundary) && c.order <= 0
    requires Le(boundary, key) && retained <= Lcp(boundary, key)
    ensures c.common <= |c.query| && Admits(c, retained)
    ensures Describes(Read(c, retained, key[retained..]), key)
  {
    LcpIs(boundary, key);
    LcpIs(boundary, c.query);
    if c.common >= retained {
      SharedPrefix(boundary, key, c.query, retained);
      SuffixOrder(key, c.query, retained);
    } else {
      LcpUnique(key, c.query, c.common);
      assert key[c.common] == boundary[c.common];
    }
  }

  /** `predecessor`: step back to a key below the boundary, knowing only their common prefix. */
  function StepBack(c: Context, cut: nat): Context {
    var common := Min(cut, c.common);
    if common == |c.query| then Context(c.query, common, Some(|c.query|), 0)
    else Context(c.query, common, None, -1)
  }

  lemma StepBackDescribes(c: Context, boundary: Key, key: Key)
    requires Describes(c, boundary) && c.order <= 0 && Le(key, boundary)
    ensures Admits(c, Lcp(key, boundary))
    ensures Describes(StepBack(c, Lcp(key, boundary)), key) && StepBack(c, Lcp(key, boundary)).order <= 0
  {
    LcpOrderedMin(key, boundary, c.query);
    OrderZero(key, c.query);
  }

  // ----- windows of one sorted stream

  /** The window [first, last) of a sorted stream, for a boundary at or below the query: everything before it is
      at most the boundary, everything in or after it is at least the boundary, and everything after it
      exceeds the query. */
  ghost predicate WindowOf(keys: seq<Key>, first: nat, last: nat, boundary: Key, query: Key) {
    && first <= last <= |keys| && Le(boundary, query)
    && (forall x {:trigger keys[x]} | 0 <= x < first :: Le(keys[x], boundary))
    && (forall x {:trigger keys[x]} | first <= x < |keys| :: Le(boundary, keys[x]))
    && (forall x {:trigger keys[x]} | last <= x < |keys| :: Lt(query, keys[x]))
  }

  /** The first record of a window shares its retained prefix with the boundary. */
  lemma WindowEntry(run: Run, first: nat, last: nat, boundary: Key, query: Key)
    requires Framed(run) && WindowOf(run.keys, first, last, boundary, query) && first < |run.keys|
    ensures Readable(run, first, boundary)
  {
    if first > 0 {
      LcpOrderedMin(run.keys[first - 1], boundary, run.keys[first]);
    }
  }

  /** The entry of a stream that equals the query, if any. */
  ghost predicate IsFound(keys: seq<Key>, query: Key, hit: Option<nat>) {
    if hit.Some? then hit.value < |keys| && keys[hit.value] == query else query !in keys
  }

  /** The last entry at or below the query, if any. */
  ghost predicate IsPredecessor(keys: seq<Key>, query: Key, p: Option<nat>) {
    if p.Some? then
      && p.value < |keys| && Le(keys[p.value], query)
      && (p.value + 1 < |keys| ==> Lt(query, keys[p.value + 1]))
    else
      |keys| > 0 ==> Lt(query, keys[0])
  }

  /** Record i can be read against this boundary. */
  ghost predicate Readable(run: Run, i: nat, boundary: Key) {
    i < |run.keys| ==>
      && i < |run.retained| && Le(boundary, run.keys[i])
      && run.retained[i] <= Lcp(boundary, run.keys[i])
  }

  lemma NextReadable(run: Run, i: nat)
    requires Framed(run) && Nondecreasing(run.keys) && i < |run.keys|
    ensures Readable(run, i + 1, run.keys[i])
  {
    if i + 1 < |run.keys| { assert Le(run.keys[i], run.keys[i + 1]); }
  }

  /** Read record i; the inherited-length error cannot be taken. */
  method ReadRecord(run: Run, i: nat, c: Context, ghost boundary: Key) returns (next: Context)
    requires i < |run.keys| && Readable(run, i, boundary) && Describes(c, boundary) && c.order <= 0
    ensures next.query == c.query && Describes(next, run.keys[i])
  {
    ReadDescribes(c, boundary, run.keys[i], run.retained[i]);
    assert Admits(c, run.retained[i]);
    next := Read(c, run.retained[i], run.keys[i][run.retained[i]..]);
  }

  /** What a native window search can miss: only an equal entry before the window. */
  lemma MissedEntry(keys: seq<Key>, first: nat, last: nat, boundary: Key, query: Key, x: nat)
    requires Increasing(keys) && WindowOf(keys, first, last, boundary, query)
    requires x < |keys| && keys[x] == query && !(first <= x < last)
    ensures x < first && boundary == query && x == first - 1
  {
    OrderTotal(query, query);
    assert x < first;
    OrderTotal(keys[x], boundary);
    if x < first - 1 {
      assert Lt(keys[x], keys[first - 1]) && Le(keys[first - 1], boundary);
      OrderTotal(keys[first - 1], boundary);
      OrderTotal(keys[x], keys[first - 1]);
      assert false;
    }
  }

  /** The native half of `search_window`: read records from `first` until one is at or above the query. */
  method FindInWindow(run: Run, first: nat, last: nat, context: Context, ghost boundary: Key)
    returns (hit: Option<nat>)
    requires NativeRun(run) && WindowOf(run.keys, first, last, boundary, context.query)
    requires Describes(context, boundary)
    ensures hit.Some? ==> first <= hit.value < last && run.keys[hit.value] == context.query
    ensures hit.None? ==> forall x | first <= x < last :: run.keys[x] != context.query
  {
    IncreasingNondecreasing(run.keys);
    var c := context;
    ghost var previous := boundary;
    if first < last { WindowEntry(run, first, last, boundary, c.query); }
    var i := first;
    while i < last
      invariant first <= i <= last && c.query == context.query
      invariant Describes(c, previous) && c.order <= 0 && (i < last ==> Readable(run, i, previous))
      invariant forall x | first <= x < i :: run.keys[x] != context.query
    {
      c := ReadRecord(run, i, c, previous);
      OrderZero(run.keys[i], context.query);
      if c.order == 0 { return Some(i); }
      if c.order > 0 {
        AllAbove(run.keys, i, context.query);
        return None;
      }
      NextReadable(run, i);
      previous := run.keys[i];
      i := i + 1;
    }
    return None;
  }

  lemma AllAbove(keys: seq<Key>, i: nat, query: Key)
    requires Nondecreasing(keys) && i < |keys| && Order(keys[i], query) > 0
    ensures forall x | i <= x < |keys| :: Lt(query, keys[x]) && keys[x] != query
  {
    LcpSymmetric(keys[i], query);
    forall x | i <= x < |keys| ensures Lt(query, keys[x]) && keys[x] != query {
      assert Le(keys[i], keys[x]);
      OrderTotal(query, keys[i]);
      LcpOrderedMin(query, keys[i], keys[x]);
      OrderTotal(query, keys[x]);
    }
  }
}
