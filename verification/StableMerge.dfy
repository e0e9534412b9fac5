/** The stable k-way merge of sorted key streams. */
module StableMerge {
  // The simple form that the fractional index builder, the sample cursors, the single-target index stages and the
  // range sweep are all measured against. Streams are numbered from zero; among equal keys the lower-numbered stream
  // comes first.

  import opened Keys

  /** One merged occurrence: which stream it came from and its key. */
  datatype Item = Item(origin: nat, key: Key)

  type Streams = seq<seq<Key>>

  /** How many of the first t occurrences came from stream o. */
  function Count(items: seq<Item>, o: nat, t: nat): (c: nat)
    requires t <= |items|
    ensures c <= t
  {
    if t == 0 then 0 else Count(items, o, t - 1) + (if items[t - 1].origin == o then 1 else 0)
  }

  lemma CountMonotone(items: seq<Item>, o: nat, t: nat, u: nat)
    requires t <= u <= |items|
    ensures Count(items, o, t) <= Count(items, o, u) <= Count(items, o, t) + (u - t)
  {
  }

  lemma CountAgrees(a: seq<Item>, b: seq<Item>, o: nat, t: nat)
    requires t <= |a| && t <= |b| && forall i | 0 <= i < t :: a[i] == b[i]
    ensures Count(a, o, t) == Count(b, o, t)
  {
  }

  lemma CountsAgree(a: seq<Item>, b: seq<Item>, t: nat)
    requires t <= |a| && t <= |b| && forall i | 0 <= i < t :: a[i] == b[i]
    ensures forall o: nat :: Count(a, o, t) == Count(b, o, t)
  {
    forall o: nat ensures Count(a, o, t) == Count(b, o, t) { CountAgrees(a, b, o, t); }
  }

  /** Stream a's head x leaves no later than stream b's head y. */
  predicate Before(a: nat, x: Key, b: nat, y: Key) {
    if a <= b then Le(x, y) else Lt(x, y)
  }

  /** The t-th occurrence is the next entry of its own stream and leaves before every other head. */
  ghost predicate TakesBest(streams: Streams, items: seq<Item>, t: nat)
    requires t < |items|
  {
    var o := items[t].origin;
    && o < |streams|
    && Count(items, o, t) < |streams[o]|
    && items[t].key == streams[o][Count(items, o, t)]
    && forall x | 0 <= x < |streams| && Count(items, x, t) < |streams[x]| ::
         Before(o, items[t].key, x, streams[x][Count(items, x, t)])
  }

  ghost predicate IsMerge(streams: Streams, items: seq<Item>) {
    && (forall t | 0 <= t < |items| :: TakesBest(streams, items, t))
    && (forall o | 0 <= o < |streams| :: Count(items, o, |items|) == |streams[o]|)
  }

  ghost predicate SortedStreams(streams: Streams) {
    forall o | 0 <= o < |streams| :: Nondecreasing(streams[o])
  }

  // ----- a merge exists and is unique

  ghost function Remaining(streams: Streams, items: seq<Item>, n: nat): nat
    requires n <= |streams|
    requires forall o | 0 <= o < |streams| :: Count(items, o, |items|) <= |streams[o]|
  {
    if n == 0 then 0 else Remaining(streams, items, n - 1) + |streams[n - 1]| - Count(items, n - 1, |items|)
  }

  lemma CountAppend(items: seq<Item>, item: Item, o: nat)
    ensures Count(items + [item], o, |items| + 1) == Count(items, o, |items|) + (if item.origin == o then 1 else 0)
    ensures forall t | 0 <= t <= |items| :: Count(items + [item], o, t) == Count(items, o, t)
  {
    forall t | 0 <= t <= |items| ensures Count(items + [item], o, t) == Count(items, o, t) {
      CountAgrees(items + [item], items, o, t);
    }
  }

  lemma RemainingAppend(streams: Streams, items: seq<Item>, item: Item, n: nat)
    requires n <= |streams|
    requires forall o | 0 <= o < |streams| :: Count(items, o, |items|) <= |streams[o]|
    requires forall o | 0 <= o < |streams| :: Count(items + [item], o, |items| + 1) <= |streams[o]|
    ensures Remaining(streams, items + [item], n)
         == Remaining(streams, items, n) - (if item.origin < n then 1 else 0)
  {
    if n > 0 {
      RemainingAppend(streams, items, item, n - 1);
      CountAppend(items, item, n - 1);
    }
  }

  lemma TakesBestAppend(streams: Streams, items: seq<Item>, item: Item, t: nat)
    requires t < |items| && TakesBest(streams, items, t)
    ensures TakesBest(streams, items + [item], t)
  {
    forall x | 0 <= x < |streams| ensures Count(items + [item], x, t) == Count(items, x, t) {
      CountAgrees(items + [item], items, x, t);
    }
    CountAgrees(items + [item], items, items[t].origin, t);
  }

  /** The least live head among the first n streams at the end of a partial merge. */
  lemma {:induction false} LeastHead(streams: Streams, items: seq<Item>, n: nat) returns (o: nat)
    requires n <= |streams|
    ensures o <= n
    ensures o == n ==> forall x | 0 <= x < n :: Count(items, x, |items|) >= |streams[x]|
    ensures o < n ==> Count(items, o, |items|) < |streams[o]|
    ensures o < n ==> forall x | 0 <= x < n && Count(items, x, |items|) < |streams[x]| ::
              Before(o, streams[o][Count(items, o, |items|)], x, streams[x][Count(items, x, |items|)])
  {
    if n == 0 { return 0; }
    o := LeastHead(streams, items, n - 1);
    var c := Count(items, n - 1, |items|);
    if c >= |streams[n - 1]| {
      if o == n - 1 { o := n; }
      return;
    }
    var y := streams[n - 1][c];
    OrderZero(y, y);
    if o == n - 1 { return; }
    var z := streams[o][Count(items, o, |items|)];
    OrderTotal(z, y);
    if Lt(y, z) {
      forall x | 0 <= x < n && Count(items, x, |items|) < |streams[x]|
        ensures Before(n - 1, y, x, streams[x][Count(items, x, |items|)])
      {
        if x < n - 1 { LcpOrderedMin(y, z, streams[x][Count(items, x, |items|)]); }
      }
      o := n - 1;
    }
  }

  lemma MergeExists(streams: Streams)
    ensures exists items :: IsMerge(streams, items)
  {
    var items: seq<Item> := [];
    while true
      invariant forall o | 0 <= o < |streams| :: Count(items, o, |items|) <= |streams[o]|
      invariant forall t | 0 <= t < |items| :: TakesBest(streams, items, t)
      decreases Remaining(streams, items, |streams|)
    {
      var o := LeastHead(streams, items, |streams|);
      if o == |streams| {
        assert IsMerge(streams, items);
        return;
      }
      var item := Item(o, streams[o][Count(items, o, |items|)]);
      forall x: nat ensures Count(items + [item], x, |items|) == Count(items, x, |items|) {
        CountAppend(items, item, x);
      }
      forall t | 0 <= t < |items| ensures TakesBest(streams, items + [item], t) {
        TakesBestAppend(streams, items, item, t);
      }
      RemainingAppend(streams, items, item, |streams|);
      items := items + [item];
    }
  }

  /** The merge of the streams. */
  ghost function Merge(streams: Streams): (items: seq<Item>)
    ensures IsMerge(streams, items)
  {
    MergeExists(streams);
    var items :| IsMerge(streams, items);
    items
  }

  // ----- what a merge guarantees

  /** Entry x of stream o, if below the count at t, is the occurrence at some position before t. */
  lemma {:induction false} Position(streams: Streams, items: seq<Item>, o: nat, x: nat, t: nat) returns (p: nat)
    requires IsMerge(streams, items) && o < |streams| && t <= |items| && x < Count(items, o, t)
    ensures p < t && x < |streams[o]| && items[p] == Item(o, streams[o][x]) && Count(items, o, p) == x
  {
    if Count(items, o, t - 1) == x {
      p := t - 1;
      assert TakesBest(streams, items, p);
    } else {
      p := Position(streams, items, o, x, t - 1);
    }
  }

  lemma PositionAfter(streams: Streams, items: seq<Item>, o: nat, x: nat, t: nat) returns (p: nat)
    requires IsMerge(streams, items) && o < |streams| && t <= |items| && Count(items, o, t) <= x < |streams[o]|
    ensures t <= p < |items| && items[p] == Item(o, streams[o][x]) && Count(items, o, p) == x
  {
    p := Position(streams, items, o, x, |items|);
    if p < t { CountMonotone(items, o, p + 1, t); }
  }

  /** Counts never exceed the stream lengths. */
  lemma CountBound(streams: Streams, items: seq<Item>, o: nat, t: nat)
    requires IsMerge(streams, items) && o < |streams| && t <= |items|
    ensures Count(items, o, t) <= |streams[o]|
  {
    CountMonotone(items, o, t, |items|);
  }

  lemma SortedStep(streams: Streams, items: seq<Item>, t: nat)
    requires SortedStreams(streams) && IsMerge(streams, items) && t + 1 < |items|
    ensures Le(items[t].key, items[t + 1].key)
    ensures items[t].key == items[t + 1].key ==> items[t].origin <= items[t + 1].origin
  {
    var a, b := items[t], items[t + 1];
    assert TakesBest(streams, items, t) && TakesBest(streams, items, t + 1);
    if a.origin == b.origin {
      var x := Count(items, a.origin, t);
      assert Nondecreasing(streams[a.origin]);
      assert Le(streams[a.origin][x], streams[a.origin][x + 1]);
    } else {
      assert Count(items, b.origin, t) == Count(items, b.origin, t + 1);
      OrderZero(a.key, b.key);
    }
  }

  /** Occurrences leave in nondecreasing key order, and equal keys leave in stream order. */
  lemma {:induction false} Sorted(streams: Streams, items: seq<Item>, t: nat, u: nat)
    requires SortedStreams(streams) && IsMerge(streams, items) && t <= u < |items|
    ensures Le(items[t].key, items[u].key)
    ensures items[t].key == items[u].key ==> items[t].origin <= items[u].origin
    decreases u
  {
    if t == u {
      OrderZero(items[t].key, items[t].key);
    } else {
      Sorted(streams, items, t, u - 1);
      SortedStep(streams, items, u - 1);
      LcpOrderedMin(items[t].key, items[u - 1].key, items[u].key);
      OrderTotal(items[u - 1].key, items[u].key);
    }
  }

  /** Stream entries below the count at t are at most every occurrence from t - 1 on... */
  lemma BelowCut(streams: Streams, items: seq<Item>, o: nat, x: nat, t: nat, u: nat)
    requires SortedStreams(streams) && IsMerge(streams, items)
    requires o < |streams| && t <= |items| && x < Count(items, o, t) && t <= u + 1 && u < |items|
    ensures x < |streams[o]| && Le(streams[o][x], items[u].key)
    ensures streams[o][x] == items[u].key ==> o <= items[u].origin
  {
    var p := Position(streams, items, o, x, t);
    Sorted(streams, items, p, u);
  }

  /** ...and entries at or above it are at least every occurrence up to t. */
  lemma AboveCut(streams: Streams, items: seq<Item>, o: nat, x: nat, t: nat, u: nat)
    requires SortedStreams(streams) && IsMerge(streams, items)
    requires o < |streams| && t < |items| && u <= t && Count(items, o, t) <= x < |streams[o]|
    ensures Le(items[u].key, streams[o][x])
    ensures streams[o][x] == items[u].key ==> items[u].origin <= o
  {
    var p := PositionAfter(streams, items, o, x, t);
    Sorted(streams, items, u, p);
  }

  /** An interleaving takes every entry of every stream once, in stream order. */
  ghost predicate IsInterleaving(streams: Streams, items: seq<Item>) {
    && (forall t | 0 <= t < |items| :: TakesNext(streams, items, t))
    && (forall o | 0 <= o < |streams| :: Count(items, o, |items|) == |streams[o]|)
  }

  ghost predicate TakesNext(streams: Streams, items: seq<Item>, t: nat)
    requires t < |items|
  {
    var o := items[t].origin;
    o < |streams| && Count(items, o, t) < |streams[o]| && items[t].key == streams[o][Count(items, o, t)]
  }

  ghost predicate Ordered(items: seq<Item>) {
    forall t, u | 0 <= t < u < |items| :: Before(items[t].origin, items[t].key, items[u].origin, items[u].key)
  }

  /** Where an interleaving next takes an entry of stream o at or after position t. */
  lemma {:induction false} NextOf(items: seq<Item>, o: nat, t: nat, u: nat) returns (p: nat)
    requires t <= u <= |items| && Count(items, o, t) < Count(items, o, u)
    ensures t <= p < u && items[p].origin == o && Count(items, o, p) == Count(items, o, t)
    decreases u
  {
    if Count(items, o, t) < Count(items, o, u - 1) {
      p := NextOf(items, o, t, u - 1);
    } else {
      CountMonotone(items, o, t, u - 1);
      p := u - 1;
    }
  }

  /** The merge is exactly the interleaving that is ordered by key and then by stream: it loses nothing,
      repeats nothing and reorders nothing. */
  lemma MergeIsOrderedInterleaving(streams: Streams, items: seq<Item>)
    requires SortedStreams(streams)
    ensures IsMerge(streams, items) <==> IsInterleaving(streams, items) && Ordered(items)
  {
    if IsMerge(streams, items) { MergeIsOrdered(streams, items); }
    if IsInterleaving(streams, items) && Ordered(items) { OrderedIsMerge(streams, items); }
  }

  lemma MergeIsOrdered(streams: Streams, items: seq<Item>)
    requires SortedStreams(streams) && IsMerge(streams, items)
    ensures IsInterleaving(streams, items) && Ordered(items)
  {
    forall t | 0 <= t < |items| ensures TakesNext(streams, items, t) {
      assert TakesBest(streams, items, t);
    }
    forall t, u | 0 <= t < u < |items|
      ensures Before(items[t].origin, items[t].key, items[u].origin, items[u].key)
    {
      Sorted(streams, items, t, u);
      OrderTotal(items[t].key, items[u].key);
    }
  }

  lemma OrderedTakesBefore(streams: Streams, items: seq<Item>, t: nat, x: nat)
    requires IsInterleaving(streams, items) && Ordered(items)
    requires t < |items| && x < |streams| && Count(items, x, t) < |streams[x]|
    ensures Before(items[t].origin, items[t].key, x, streams[x][Count(items, x, t)])
  {
    var p := NextOf(items, x, t, |items|);
    assert TakesNext(streams, items, p);
    if p == t {
      OrderZero(items[t].key, items[t].key);
    }
  }

  lemma OrderedIsMerge(streams: Streams, items: seq<Item>)
    requires IsInterleaving(streams, items) && Ordered(items)
    ensures IsMerge(streams, items)
  {
    forall t | 0 <= t < |items| ensures TakesBest(streams, items, t) {
      assert TakesNext(streams, items, t);
      forall x | 0 <= x < |streams| && Count(items, x, t) < |streams[x]|
        ensures Before(items[t].origin, items[t].key, x, streams[x][Count(items, x, t)])
      {
        OrderedTakesBefore(streams, items, t, x);
      }
    }
  }

  lemma BestUnique(streams: Streams, items: seq<Item>, t: nat, o: nat)
    requires t < |items| && TakesBest(streams, items, t)
    requires o < |streams| && Count(items, o, t) < |streams[o]|
    requires forall x | 0 <= x < |streams| && Count(items, x, t) < |streams[x]| ::
               Before(o, streams[o][Count(items, o, t)], x, streams[x][Count(items, x, t)])
    ensures items[t].origin == o && items[t].key == streams[o][Count(items, o, t)]
  {
    var p := items[t].origin;
    OrderTotal(streams[o][Count(items, o, t)], streams[p][Count(items, p, t)]);
    OrderTotal(streams[p][Count(items, p, t)], streams[o][Count(items, o, t)]);
  }

  lemma {:induction false} MergeUniqueUpTo(streams: Streams, a: seq<Item>, b: seq<Item>, t: nat)
    requires IsMerge(streams, a) && IsMerge(streams, b) && t <= |a|
    ensures t <= |b| && forall i | 0 <= i < t :: a[i] == b[i]
  {
    if t > 0 {
      MergeUniqueUpTo(streams, a, b, t - 1);
      CountsAgree(a, b, t - 1);
      assert TakesBest(streams, a, t - 1);
      var o := a[t - 1].origin;
      if t - 1 == |b| {
        assert false;
      } else {
        assert TakesBest(streams, b, t - 1);
        BestUnique(streams, b, t - 1, o);
      }
    }
  }

  lemma MergeUnique(streams: Streams, a: seq<Item>, b: seq<Item>)
    requires IsMerge(streams, a) && IsMerge(streams, b)
    ensures a == b
  {
    MergeUniqueUpTo(streams, a, b, |a|);
    MergeUniqueUpTo(streams, b, a, |b|);
  }

  /** At the end nothing is live; before the end something is. */
  lemma LiveIffBefore(streams: Streams, items: seq<Item>, t: nat)
    requires IsMerge(streams, items) && t <= |items|
    ensures t == |items| <==> forall o | 0 <= o < |streams| :: Count(items, o, t) == |streams[o]|
  {
    if t < |items| {
      assert TakesBest(streams, items, t);
    }
  }

  lemma {:induction false} LengthIsTotal(streams: Streams, items: seq<Item>)
    requires IsMerge(streams, items) && |streams| == 3
    ensures |items| == |streams[0]| + |streams[1]| + |streams[2]|
  {
    CountsAddUp(streams, items, |items|);
  }

  lemma {:induction false} CountsAddUp(streams: Streams, items: seq<Item>, t: nat)
    requires IsMerge(streams, items) && |streams| == 3 && t <= |items|
    ensures t == Count(items, 0, t) + Count(items, 1, t) + Count(items, 2, t)
  {
    if t > 0 {
      CountsAddUp(streams, items, t - 1);
      assert TakesBest(streams, items, t - 1);
    }
  }
}
