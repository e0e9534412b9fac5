/** Choosing the next occurrence of a merge from carried common prefixes. */
module Frontier {
  // Every live head follows the same preceding occurrence p and comes with its exact common prefix with p. Two heads
  // are compared by those two numbers; only when they are equal is any key text read, and then only from that
  // boundary on (cola_detail::choose_frontier).

  import opened Options
  import opened Keys
  import opened StableMerge

  /** The pair returned by `compare_common_bits`. */
  datatype Comparison = Comparison(common: nat, order: int)

  function Compare(a: Key, b: Key): Comparison {
    Comparison(Lcp(a, b), Order(a, b))
  }

  /** Compare two heads given their carried prefixes with the preceding occurrence. */
  function FrontierCompare(prefixA: nat, prefixB: nat, a: Key, b: Key): Comparison
    requires prefixA <= |a| && prefixB <= |b|
  {
    if prefixA != prefixB then
      Comparison(Min(prefixA, prefixB), if prefixA > prefixB then -1 else 1)
    else
      var suffix := Compare(a[prefixA..], b[prefixA..]);
      Comparison(prefixA + suffix.common, suffix.order)
  }

  /** Carried prefixes decide exactly what a comparison of the whole keys would. */
  lemma FrontierCompareExact(p: Key, a: Key, b: Key)
    requires Le(p, a) && Le(p, b)
    ensures FrontierCompare(Lcp(p, a), Lcp(p, b), a, b) == Compare(a, b)
  {
    var x, y := Lcp(p, a), Lcp(p, b);
    if x > y {
      FrontierOrder(p, a, b);
    } else if y > x {
      FrontierOrder(p, b, a);
      LcpSymmetric(a, b);
    } else {
      SharedPrefix(p, a, b, x);
      SuffixOrder(a, b, x);
    }
  }

  predicate Live(heads: seq<Option<Key>>, o: nat) {
    o < |heads| && heads[o].Some?
  }

  /** Carried prefixes are exact for every live head, and every live head is at least p. */
  ghost predicate Carried(p: Key, prefixes: seq<nat>, heads: seq<Option<Key>>) {
    && |prefixes| == |heads|
    && forall o {:trigger Live(heads, o)} | 0 <= o < |heads| && Live(heads, o) ::
         Le(p, heads[o].value) && prefixes[o] == Lcp(p, heads[o].value)
  }

  /** Head `origin` leaves first among the first n streams, and `common` holds its exact common prefix
      with every live head among them. */
  ghost predicate Selected(heads: seq<Option<Key>>, n: nat, origin: nat, common: seq<nat>)
    requires n <= |heads|
  {
    && |common| == |heads|
    && origin < n && Live(heads, origin)
    && forall o {:trigger Live(heads, o)} | 0 <= o < n && Live(heads, o) ::
         && Before(origin, heads[origin].value, o, heads[o].value)
         && common[o] == Lcp(heads[origin].value, heads[o].value)
  }

  /** A strictly smaller candidate replaces the selection; each old common prefix can only shrink. */
  lemma NewWinner(heads: seq<Option<Key>>, n: nat, origin: nat, common: seq<nat>, lowered: seq<nat>)
    requires n < |heads| && Live(heads, n) && Selected(heads, n, origin, common)
    requires Lt(heads[n].value, heads[origin].value)
    requires |lowered| == |heads| && lowered[n] == |heads[n].value|
    requires forall i | 0 <= i < n :: lowered[i] == Min(common[i], Lcp(heads[n].value, heads[origin].value))
    ensures Selected(heads, n + 1, n, lowered)
  {
    var key := heads[n].value;
    OrderZero(key, key);
    forall o | 0 <= o < n && Live(heads, o)
      ensures Before(n, key, o, heads[o].value) && lowered[o] == Lcp(key, heads[o].value)
    {
      LcpOrderedMin(key, heads[origin].value, heads[o].value);
    }
  }

  lemma KeptWinner(heads: seq<Option<Key>>, n: nat, origin: nat, common: seq<nat>)
    requires n < |heads| && Live(heads, n) && Selected(heads, n, origin, common)
    requires !Lt(heads[n].value, heads[origin].value)
    ensures Selected(heads, n + 1, origin, common[n := Lcp(heads[n].value, heads[origin].value)])
  {
    LcpSymmetric(heads[origin].value, heads[n].value);
  }

  /** `choose_frontier`. With no live head the original raises an error; here `origin` is then |heads|. */
  method ChooseFrontier(prefixes: seq<nat>, heads: seq<Option<Key>>, ghost p: Key)
    returns (origin: nat, common: seq<nat>)
    requires Carried(p, prefixes, heads)
    ensures origin == |heads| <==> forall o | 0 <= o < |heads| :: !Live(heads, o)
    ensures origin != |heads| ==> Selected(heads, |heads|, origin, common)
  {
    origin := |heads|;
    common := seq(|heads|, _ => 0);
    for o := 0 to |heads|
      invariant |common| == |heads|
      invariant origin == |heads| ==> forall i | 0 <= i < o :: !Live(heads, i)
      invariant origin != |heads| ==> Selected(heads, o, origin, common)
    {
      if heads[o].Some? {
        var candidate := heads[o].value;
        if origin == |heads| {
          origin := o;
          common := common[o := |candidate|];
          OrderZero(candidate, candidate);
        } else {
          assert Live(heads, o) && Live(heads, origin);
          var key := heads[origin].value;
          var comparison := FrontierCompare(prefixes[o], prefixes[origin], candidate, key);
          FrontierCompareExact(p, candidate, key);
          if comparison.order < 0 {
            var lowered := LowerBelow(common, o, comparison.common);
            lowered := lowered[o := |candidate|];
            NewWinner(heads, o, origin, common, lowered);
            origin, common := o, lowered;
          } else {
            KeptWinner(heads, o, origin, common);
            common := common[o := comparison.common];
          }
        }
      }
    }
  }

  /** Every entry before n is cut down to the limit. */
  method LowerBelow(common: seq<nat>, n: nat, limit: nat) returns (lowered: seq<nat>)
    requires n <= |common|
    ensures |lowered| == |common|
    ensures forall i | 0 <= i < n :: lowered[i] == Min(common[i], limit)
    ensures forall i | n <= i < |common| :: lowered[i] == common[i]
  {
    lowered := common;
    for i := 0 to n
      invariant |lowered| == |common|
      invariant forall j | 0 <= j < i :: lowered[j] == Min(common[j], limit)
      invariant forall j | i <= j < |common| :: lowered[j] == common[j]
    {
      lowered := lowered[i := Min(lowered[i], limit)];
    }
  }

  // ----- a frontier at a position of a merge

  /** The occurrence the frontier follows; before the first one it is the empty key, below every key. */
  function Previous(items: seq<Item>, t: nat): Key
    requires t <= |items|
  {
    if t == 0 then [] else items[t - 1].key
  }

  lemma EmptyIsLeast(a: Key)
    ensures Le([], a) && Lcp([], a) == 0
  {
  }

  function HeadsAt(streams: Streams, pos: seq<nat>): (heads: seq<Option<Key>>)
    requires |pos| == |streams|
    ensures |heads| == |streams|
    ensures forall o | 0 <= o < |streams| ::
              heads[o] == if pos[o] < |streams[o]| then Some(streams[o][pos[o]]) else None
  {
    seq(|streams|, o requires 0 <= o < |streams| =>
      if pos[o] < |streams[o]| then Some(streams[o][pos[o]]) else None)
  }

  /** Cursor positions and carried prefixes after t merged occurrences. */
  ghost predicate FrontierAt(streams: Streams, items: seq<Item>, t: nat, pos: seq<nat>, prefixes: seq<nat>) {
    && t <= |items|
    && |pos| == |streams| && |prefixes| == |streams|
    && (forall o | 0 <= o < |streams| :: pos[o] == Count(items, o, t) <= |streams[o]|)
    && (forall o | 0 <= o < |streams| && pos[o] < |streams[o]| ::
          prefixes[o] == Lcp(Previous(items, t), streams[o][pos[o]]))
  }

  /** Sorted streams, the first strictly, with their merge. */
  ghost predicate Trusted(streams: Streams, items: seq<Item>) {
    && |streams| == 3 && SortedStreams(streams) && Increasing(streams[0]) && IsMerge(streams, items)
  }

  /** The comparison a stream cursor reports while advancing from entry x; none at the end. */
  function NextComparison(stream: seq<Key>, x: nat): Option<Comparison>
    requires x < |stream|
  {
    if x + 1 < |stream| then Some(Compare(stream[x], stream[x + 1])) else None
  }

  /** The carried prefix a cursor reports on advancing: zero at the end. */
  function Edge(next: Option<Comparison>): nat {
    if next.Some? then next.value.common else 0
  }

  /** No source is ever found out of order. */
  lemma NextInOrder(streams: Streams, items: seq<Item>, o: nat, x: nat)
    requires Trusted(streams, items) && o < 3 && x < |streams[o]|
    ensures var next := NextComparison(streams[o], x);
            next.Some? ==> next.value.order <= 0 && (o == 0 ==> next.value.order < 0)
  {
    if x + 1 < |streams[o]| {
      assert Nondecreasing(streams[o]) && Le(streams[o][x], streams[o][x + 1]);
      assert o == 0 ==> Lt(streams[o][x], streams[o][x + 1]);
    }
  }

  lemma FrontierStart(streams: Streams, items: seq<Item>)
    ensures FrontierAt(streams, items, 0, seq(|streams|, _ => 0), seq(|streams|, _ => 0))
  {
    forall o | 0 <= o < |streams| && 0 < |streams[o]| ensures Lcp([], streams[o][0]) == 0 {
      EmptyIsLeast(streams[o][0]);
    }
  }

  lemma FrontierCarried(streams: Streams, items: seq<Item>, t: nat, pos: seq<nat>, prefixes: seq<nat>)
    requires SortedStreams(streams) && IsMerge(streams, items)
    requires FrontierAt(streams, items, t, pos, prefixes)
    ensures Carried(Previous(items, t), prefixes, HeadsAt(streams, pos))
  {
    forall o | 0 <= o < |streams| && pos[o] < |streams[o]|
      ensures Le(Previous(items, t), streams[o][pos[o]])
    {
      if t == 0 {
        EmptyIsLeast(streams[o][pos[o]]);
      } else {
        CountMonotone(items, o, t - 1, t);
        AboveCut(streams, items, o, pos[o], t - 1, t - 1);
      }
    }
  }

  /** The selected head is the next occurrence of the merge. */
  lemma SelectedIsNext(streams: Streams, items: seq<Item>, t: nat, pos: seq<nat>, prefixes: seq<nat>,
                       origin: nat, common: seq<nat>)
    requires IsMerge(streams, items) && FrontierAt(streams, items, t, pos, prefixes)
    requires Selected(HeadsAt(streams, pos), |streams|, origin, common)
    ensures t < |items| && items[t] == Item(origin, streams[origin][pos[origin]])
  {
    LiveIffBefore(streams, items, t);
    assert TakesBest(streams, items, t);
    var heads := HeadsAt(streams, pos);
    forall x | 0 <= x < |streams| && Count(items, x, t) < |streams[x]|
      ensures Before(origin, streams[origin][pos[origin]], x, streams[x][Count(items, x, t)])
    {
      assert Live(heads, x);
    }
    BestUnique(streams, items, t, origin);
  }

  /** Advancing the selected stream moves the frontier by one occurrence: the other prefixes are the
      selection's common prefixes and the advanced one is the common prefix of the two stream entries. */
  lemma FrontierAdvance(streams: Streams, items: seq<Item>, t: nat, pos: seq<nat>, prefixes: seq<nat>,
                        origin: nat, common: seq<nat>, edge: nat)
    requires IsMerge(streams, items) && FrontierAt(streams, items, t, pos, prefixes)
    requires Selected(HeadsAt(streams, pos), |streams|, origin, common)
    requires pos[origin] + 1 < |streams[origin]| ==>
               edge == Lcp(streams[origin][pos[origin]], streams[origin][pos[origin] + 1])
    ensures t < |items|
    ensures FrontierAt(streams, items, t + 1, pos[origin := pos[origin] + 1], common[origin := edge])
  {
    SelectedIsNext(streams, items, t, pos, prefixes, origin, common);
    var heads := HeadsAt(streams, pos);
    forall o | 0 <= o < |streams| && o != origin && pos[o] < |streams[o]|
      ensures common[o] == Lcp(items[t].key, streams[o][pos[o]])
    {
      assert Live(heads, o);
    }
  }
}
