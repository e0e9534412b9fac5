/** The encoded two-way native merge (native_merge_builder). */
module NativeMerges {
  // Order is chosen from carried prefix lengths, output literals are cut out of input literals, and no key is
  // rebuilt unless a policy asks for it.

  import opened Options
  import opened Keys
  import opened Frontier
  import opened ColaSpec
  import opened NativeStreams

  /** What an owner supplies: how an older and a newer value of one key combine, and which values are tombstones. */
  datatype Policy = Policy(compose: (Key, Value, Value) -> Value, tombstone: (Key, Value) -> bool)

  // ----- the simple form: merge whole keys

  /** `limit` is the smallest retained prefix among the records this entry replaces. */
  datatype Entry = Entry(key: Key, value: Value, limit: nat)

  predicate Aligned(run: Run) {
    |run.keys| == |run.retained| == |run.values|
  }

  /** Which head goes next: -1 older, 1 newer, 0 both. */
  function Turn(older: Run, newer: Run, i: nat, j: nat): int
    requires i <= |older.keys| && j <= |newer.keys|
  {
    if i == |older.keys| then 1 else if j == |newer.keys| then -1 else Order(older.keys[i], newer.keys[j])
  }

  function NextEntry(older: Run, newer: Run, i: nat, j: nat, policy: Policy): Entry
    requires Aligned(older) && Aligned(newer) && i <= |older.keys| && j <= |newer.keys|
    requires i < |older.keys| || j < |newer.keys|
  {
    var turn := Turn(older, newer, i, j);
    if turn < 0 then Entry(older.keys[i], older.values[i], older.retained[i])
    else if turn > 0 then
      (if j < |newer.keys| then Entry(newer.keys[j], newer.values[j], newer.retained[j]) else Entry([], [], 0))
    else Entry(older.keys[i], policy.compose(older.keys[i], older.values[i], newer.values[j]),
               Min(older.retained[i], newer.retained[j]))
  }

  function FromOlder(older: Run, newer: Run, i: nat, j: nat): nat
    requires i <= |older.keys| && j <= |newer.keys|
  {
    if Turn(older, newer, i, j) <= 0 then 1 else 0
  }

  function FromNewer(older: Run, newer: Run, i: nat, j: nat): nat
    requires i <= |older.keys| && j <= |newer.keys|
  {
    if Turn(older, newer, i, j) >= 0 then 1 else 0
  }

  function Merged(older: Run, newer: Run, i: nat, j: nat, policy: Policy): seq<Entry>
    requires Aligned(older) && Aligned(newer) && i <= |older.keys| && j <= |newer.keys|
    decreases |older.keys| - i + |newer.keys| - j
  {
    if i == |older.keys| && j == |newer.keys| then []
    else [NextEntry(older, newer, i, j, policy)]
         + Merged(older, newer, i + FromOlder(older, newer, i, j), j + FromNewer(older, newer, i, j), policy)
  }

  /** A tombstone keeps no longer a prefix than any record it replaces; every other record keeps all it shares. */
  function Retained(policy: Policy, before: Key, e: Entry): nat {
    if policy.tombstone(e.key, e.value) then Min(Lcp(before, e.key), e.limit) else Lcp(before, e.key)
  }

  function Before(entries: seq<Entry>, x: nat): Key
    requires x <= |entries|
  {
    if x == 0 then [] else entries[x - 1].key
  }

  /** The front-coded run that a list of entries becomes. */
  function RunOf(entries: seq<Entry>, policy: Policy): (run: Run)
    ensures |run.keys| == |run.retained| == |run.values| == |entries|
  {
    if entries == [] then Run([], [], [])
    else
      var n := |entries| - 1;
      Appended(RunOf(entries[..n], policy), entries[n].key, Retained(policy, Before(entries, n), entries[n]),
               entries[n].value)
  }

  lemma RunOfAppend(entries: seq<Entry>, e: Entry, policy: Policy)
    ensures RunOf(entries + [e], policy)
         == Appended(RunOf(entries, policy), e.key, Retained(policy, Before(entries, |entries|), e), e.value)
    ensures LastKey(RunOf(entries, policy)) == Before(entries, |entries|)
  {
    assert (entries + [e])[..|entries|] == entries;
  }

  // ----- heads

  /** The next unread key of an input follows the last emitted key, its carried prefix is exact, and the frame
      retains no more than that. */
  ghost predicate HeadReady(run: Run, i: nat, last: Key, first: bool, prefix: nat)
    requires Aligned(run)
  {
    i < |run.keys| ==>
      && Le(last, run.keys[i]) && (first || Lt(last, run.keys[i]))
      && prefix == Lcp(last, run.keys[i]) && run.retained[i] <= prefix
  }

  lemma NextHead(run: Run, i: nat)
    requires NativeRun(run) && i < |run.keys|
    ensures i + 1 < |run.keys| ==>
              HeadReady(run, i + 1, run.keys[i], false, Lcp(run.keys[i], run.keys[i + 1]))
    ensures i + 1 < |run.keys| ==> Order(run.keys[i], run.keys[i + 1]) < 0
  {
    if i + 1 < |run.keys| { assert Lt(run.keys[i], run.keys[i + 1]); }
  }

  /** The head that was not emitted keeps covering its own frame. */
  lemma WaitingHead(run: Run, j: nat, last: Key, first: bool, prefix: nat, key: Key)
    requires Aligned(run) && HeadReady(run, j, last, first, prefix)
    requires Le(last, key) && (j < |run.keys| ==> Lt(key, run.keys[j]))
    ensures j < |run.keys| ==> HeadReady(run, j, key, false, Lcp(key, run.keys[j]))
  {
    if j < |run.keys| { LcpOrderedMin(last, key, run.keys[j]); }
  }

  /** `suffix`: what an output record spells past its retained prefix is a tail of the input literal. */
  method Suffix(s: Stream, f: Frame, retained: nat, ghost run: Run, ghost i: nat) returns (suffix: seq<nat>)
    requires Reads(s, run) && i < |s.frames| && f == s.frames[i] && f.retained <= retained <= |run.keys[i]|
    ensures suffix == run.keys[i][retained..]
  {
    assert FrameReads(s, run, i);
    suffix := Literal(s, f)[retained - f.retained..];
    TailOf(run.keys[i], f.retained, Literal(s, f), retained);
  }

  lemma TailOf(key: Key, from: nat, tail: seq<nat>, retained: nat)
    requires from <= retained <= |key| && key == key[..from] + tail
    ensures tail[retained - from..] == key[retained..]
  {
  }

  /** Both inputs as streams, and the runs they spell. */
  datatype Inputs = Inputs(older: Stream, newer: Stream)

  datatype Runs = Runs(older: Run, newer: Run)

  datatype State = State(older: Cursor, newer: Cursor, olderPrefix: nat, newerPrefix: nat, writer: Stream)

  ghost predicate Opened(inputs: Inputs, runs: Runs) {
    && Reads(inputs.older, runs.older) && Reads(inputs.newer, runs.newer)
    && NativeRun(runs.older) && NativeRun(runs.newer)
  }

  ghost predicate Ready(inputs: Inputs, runs: Runs, s: State, entries: seq<Entry>)
    requires Opened(inputs, runs)
  {
    && CursorAt(inputs.older, runs.older, s.older) && CursorAt(inputs.newer, runs.newer, s.newer)
    && HeadReady(runs.older, s.older.ordinal, Before(entries, |entries|), entries == [], s.olderPrefix)
    && HeadReady(runs.newer, s.newer.ordinal, Before(entries, |entries|), entries == [], s.newerPrefix)
  }

  /** `compare_heads`: exact although it reads at most the two suffixes from equal carried prefixes. */
  method CompareHeads(inputs: Inputs, s: State, ghost runs: Runs, ghost entries: seq<Entry>) returns (c: Comparison)
    requires Opened(inputs, runs) && Ready(inputs, runs, s, entries)
    ensures c.order == Turn(runs.older, runs.newer, s.older.ordinal, s.newer.ordinal)
    ensures s.older.ordinal < |runs.older.keys| && s.newer.ordinal < |runs.newer.keys| ==>
              c == Compare(runs.older.keys[s.older.ordinal], runs.newer.keys[s.newer.ordinal])
  {
    if s.older.ordinal == |inputs.older.frames| { return Comparison(0, 1); }
    if s.newer.ordinal == |inputs.newer.frames| { return Comparison(0, -1); }
    FrontierCompareExact(Before(entries, |entries|), runs.older.keys[s.older.ordinal], runs.newer.keys[s.newer.ordinal]);
    if s.olderPrefix != s.newerPrefix {
      return Comparison(Min(s.olderPrefix, s.newerPrefix), if s.olderPrefix > s.newerPrefix then -1 else 1);
    }
    assert FrameReads(inputs.older, runs.older, s.older.ordinal);
    assert FrameReads(inputs.newer, runs.newer, s.newer.ordinal);
    var x := Suffix(inputs.older, inputs.older.frames[s.older.ordinal], s.olderPrefix, runs.older, s.older.ordinal);
    var y := Suffix(inputs.newer, inputs.newer.frames[s.newer.ordinal], s.newerPrefix, runs.newer, s.newer.ordinal);
    var result := Compare(x, y);
    c := Comparison(s.olderPrefix + result.common, result.order);
  }

  // ----- output

  function PreviousUnits(out: Stream): nat {
    if out.frames == [] then 0 else out.frames[|out.frames| - 1].units
  }

  /** `native_output::append`: the framing check, then one more frame. */
  method Write(out: Stream, retained: nat, literal: seq<nat>, value: Value) returns (ok: bool, next: Stream)
    ensures ok <==> retained <= PreviousUnits(out) && (out.frames == [] || literal != [])
    ensures next == if ok then Extend(out, retained, literal, value) else out
  {
    if retained > PreviousUnits(out) || (|out.frames| > 0 && literal == []) { return false, out; }
    return true, Extend(out, retained, literal, value);
  }

  /** What the writer holds after a list of entries. */
  ghost predicate Written(out: Stream, entries: seq<Entry>, policy: Policy) {
    Reads(out, RunOf(entries, policy))
  }

  lemma WrittenUnits(out: Stream, entries: seq<Entry>, policy: Policy)
    requires Written(out, entries, policy)
    ensures PreviousUnits(out) == |Before(entries, |entries|)| && |out.frames| == |entries|
  {
    if |entries| > 0 { assert FrameReads(out, RunOf(entries, policy), |entries| - 1); }
  }

  /** `append`: emit entry e from a donor record with the same key. Neither the reconstruction branch nor the
      writer's framing error can be taken. */
  method Append(out: Stream, stream: Stream, cursor: Cursor, value: Value, prefix: nat, limit: nat, policy: Policy,
                ghost run: Run, ghost entries: seq<Entry>, ghost e: Entry)
    returns (next: Stream)
    requires CursorAt(stream, run, cursor) && cursor.ordinal < |stream.frames| && Written(out, entries, policy)
    requires e == Entry(run.keys[cursor.ordinal], value, limit)
    requires HeadReady(run, cursor.ordinal, Before(entries, |entries|), entries == [], prefix)
    requires policy.tombstone(e.key, e.value) ==> run.retained[cursor.ordinal] == limit
    ensures Written(next, entries + [e], policy)
    ensures var shared := if entries == [] then 0 else Lcp(entries[|entries| - 1].key, e.key);
            var kept := if policy.tombstone(e.key, value) then Min(shared, limit) else shared;
            |next.frames| == |out.frames| + 1 && InBounds(next, next.frames[|out.frames|])
            && next.frames[|out.frames|].retained == kept && next.frames[|out.frames|].value == value
            && kept <= |e.key| && Literal(next, next.frames[|out.frames|]) == e.key[kept..]
  {
    var retained, literal := Donate(stream, cursor, value, prefix, limit, policy, run, Before(entries, |entries|),
                                    entries == []);
    EmptyIsLeast(e.key);
    hide Covers, HeadReady, CursorAt, FrameReads, InBounds, Literal, Lcp;
    next := Emit(out, retained, literal, value, policy, entries, e);
  }

  /** The prefix to keep and the literal to write, cut out of the donor's literal. */
  method Donate(stream: Stream, cursor: Cursor, value: Value, prefix: nat, limit: nat, policy: Policy, ghost run: Run,
                ghost before: Key, ghost first: bool)
    returns (retained: nat, literal: seq<nat>)
    requires Reads(stream, run) && CursorAt(stream, run, cursor) && cursor.ordinal < |stream.frames|
    requires HeadReady(run, cursor.ordinal, before, first, prefix)
    requires policy.tombstone(run.keys[cursor.ordinal], value) ==> run.retained[cursor.ordinal] == limit
    ensures var key := run.keys[cursor.ordinal];
            var shared := Lcp(before, key);
            && retained == (if policy.tombstone(key, value) then Min(shared, limit) else shared)
            && retained <= |key| && literal == key[retained..]
    ensures !first ==> literal != []
  {
    var f := stream.frames[cursor.ordinal];
    ghost var key := run.keys[cursor.ordinal];
    assert FrameReads(stream, run, cursor.ordinal);
    var whole := Materialize(cursor.spans, stream.data, key);
    retained := prefix;
    if policy.tombstone(whole, value) { retained := Min(retained, limit); }
    if retained < f.retained { assert false; }
    literal := Suffix(stream, f, retained, run, cursor.ordinal);
    OrderZero(before, key);
    LcpIs(before, key);
  }

  /** One frame to the output; its framing error cannot be taken. */
  method Emit(out: Stream, retained: nat, literal: seq<nat>, value: Value, policy: Policy, ghost entries: seq<Entry>,
              ghost e: Entry) returns (next: Stream)
    requires e.value == value
    requires Written(out, entries, policy) && retained <= |e.key| && literal == e.key[retained..]
    requires retained == Retained(policy, Before(entries, |entries|), e) <= Lcp(Before(entries, |entries|), e.key)
    requires entries != [] ==> literal != []
    ensures Written(next, entries + [e], policy)
    ensures |next.frames| == |out.frames| + 1 && InBounds(next, next.frames[|out.frames|])
    ensures next.frames[|out.frames|].retained == retained && next.frames[|out.frames|].value == e.value
    ensures Literal(next, next.frames[|out.frames|]) == literal
  {
    WrittenUnits(out, entries, policy);
    RunOfAppend(entries, e, policy);
    var ok;
    ok, next := Write(out, retained, literal, value);
    assert ok;
    ExtendReads(out, RunOf(entries, policy), e.key, retained, value);
  }

  /** `advance`: move a cursor on and return the prefix its next key shares with the key just emitted. */
  method AdvanceHead(stream: Stream, cursor: Cursor, ghost run: Run) returns (next: Cursor, prefix: nat)
    requires CursorAt(stream, run, cursor) && cursor.ordinal < |stream.frames| && NativeRun(run)
    ensures CursorAt(stream, run, next) && next.ordinal == cursor.ordinal + 1
    ensures HeadReady(run, next.ordinal, run.keys[cursor.ordinal], false, prefix)
  {
    NextHead(run, cursor.ordinal);
    var result, moved, _ := MoveCursor(stream, cursor, run);
    next, prefix := moved, if result.Moved? then result.comparison.common else 0;
  }

  method EmitOlder(inputs: Inputs, s: State, c: Comparison, policy: Policy, ghost runs: Runs, ghost entries: seq<Entry>)
    returns (next: State)
    requires Opened(inputs, runs) && Ready(inputs, runs, s, entries) && Written(s.writer, entries, policy)
    requires s.older.ordinal < |inputs.older.frames| || s.newer.ordinal < |inputs.newer.frames|
    requires c.order == Turn(runs.older, runs.newer, s.older.ordinal, s.newer.ordinal) < 0
    requires s.newer.ordinal < |runs.newer.keys| ==>
               c == Compare(runs.older.keys[s.older.ordinal], runs.newer.keys[s.newer.ordinal])
    ensures var e := NextEntry(runs.older, runs.newer, s.older.ordinal, s.newer.ordinal, policy);
            Ready(inputs, runs, next, entries + [e]) && Written(next.writer, entries + [e], policy)
    ensures next.older.ordinal == s.older.ordinal + 1 && next.newer.ordinal == s.newer.ordinal
  {
    ghost var last := Before(entries, |entries|);
    ghost var e := NextEntry(runs.older, runs.newer, s.older.ordinal, s.newer.ordinal, policy);
    var f := inputs.older.frames[s.older.ordinal];
    assert FrameReads(inputs.older, runs.older, s.older.ordinal);
    var writer := Append(s.writer, inputs.older, s.older, f.value, s.olderPrefix, f.retained, policy, runs.older, entries, e);
    WaitingHead(runs.newer, s.newer.ordinal, last, entries == [], s.newerPrefix, e.key);
    var older, prefix := AdvanceHead(inputs.older, s.older, runs.older);
    next := State(older, s.newer, prefix, c.common, writer);
  }

  method EmitNewer(inputs: Inputs, s: State, c: Comparison, policy: Policy, ghost runs: Runs, ghost entries: seq<Entry>)
    returns (next: State)
    requires Opened(inputs, runs) && Ready(inputs, runs, s, entries) && Written(s.writer, entries, policy)
    requires s.older.ordinal < |inputs.older.frames| || s.newer.ordinal < |inputs.newer.frames|
    requires c.order == Turn(runs.older, runs.newer, s.older.ordinal, s.newer.ordinal) > 0
    requires s.older.ordinal < |runs.older.keys| ==>
               s.newer.ordinal < |runs.newer.keys|
               && c == Compare(runs.older.keys[s.older.ordinal], runs.newer.keys[s.newer.ordinal])
    ensures var e := NextEntry(runs.older, runs.newer, s.older.ordinal, s.newer.ordinal, policy);
            Ready(inputs, runs, next, entries + [e]) && Written(next.writer, entries + [e], policy)
    ensures next.older.ordinal == s.older.ordinal && next.newer.ordinal == s.newer.ordinal + 1
  {
    ghost var i, j, last := s.older.ordinal, s.newer.ordinal, Before(entries, |entries|);
    ghost var e := NextEntry(runs.older, runs.newer, i, j, policy);
    var f := inputs.newer.frames[s.newer.ordinal];
    assert FrameReads(inputs.newer, runs.newer, j);
    var writer := Append(s.writer, inputs.newer, s.newer, f.value, s.newerPrefix, f.retained, policy, runs.newer, entries, e);
    if i < |runs.older.keys| { LcpSymmetric(runs.older.keys[i], runs.newer.keys[j]); }
    WaitingHead(runs.older, i, last, entries == [], s.olderPrefix, e.key);
    var newer, prefix := AdvanceHead(inputs.newer, s.newer, runs.newer);
    next := State(s.older, newer, c.common, prefix, writer);
  }

  /** Equal keys are interchangeable donors: the one that retains less is already cut at the tombstone limit. */
  method EmitBoth(inputs: Inputs, s: State, policy: Policy, ghost runs: Runs, ghost entries: seq<Entry>)
    returns (next: State)
    requires Opened(inputs, runs) && Ready(inputs, runs, s, entries) && Written(s.writer, entries, policy)
    requires s.older.ordinal < |inputs.older.frames| || s.newer.ordinal < |inputs.newer.frames|
    requires Turn(runs.older, runs.newer, s.older.ordinal, s.newer.ordinal) == 0
    ensures var e := NextEntry(runs.older, runs.newer, s.older.ordinal, s.newer.ordinal, policy);
            Ready(inputs, runs, next, entries + [e]) && Written(next.writer, entries + [e], policy)
    ensures next.older.ordinal == s.older.ordinal + 1 && next.newer.ordinal == s.newer.ordinal + 1
  {
    ghost var i, j := s.older.ordinal, s.newer.ordinal;
    ghost var e := NextEntry(runs.older, runs.newer, i, j, policy);
    var f, g := inputs.older.frames[s.older.ordinal], inputs.newer.frames[s.newer.ordinal];
    assert FrameReads(inputs.older, runs.older, i) && FrameReads(inputs.newer, runs.newer, j);
    OrderZero(runs.older.keys[i], runs.newer.keys[j]);
    var key := Materialize(s.older.spans, inputs.older.data, e.key);
    var value := policy.compose(key, f.value, g.value);
    var limit := Min(f.retained, g.retained);
    var writer;
    if g.retained < f.retained {
      writer := Append(s.writer, inputs.newer, s.newer, value, s.olderPrefix, limit, policy, runs.newer, entries, e);
    } else {
      writer := Append(s.writer, inputs.older, s.older, value, s.olderPrefix, limit, policy, runs.older, entries, e);
    }
    var older, olderPrefix := AdvanceHead(inputs.older, s.older, runs.older);
    var newer, newerPrefix := AdvanceHead(inputs.newer, s.newer, runs.newer);
    next := State(older, newer, olderPrefix, newerPrefix, writer);
  }

  /** One distinct key: exactly the next entry of the whole-key merge. */
  method StepOne(inputs: Inputs, s: State, policy: Policy, ghost runs: Runs, ghost entries: seq<Entry>)
    returns (next: State, consumed: nat)
    requires Opened(inputs, runs) && Ready(inputs, runs, s, entries) && Written(s.writer, entries, policy)
    requires s.older.ordinal < |inputs.older.frames| || s.newer.ordinal < |inputs.newer.frames|
    ensures var e := NextEntry(runs.older, runs.newer, s.older.ordinal, s.newer.ordinal, policy);
            Ready(inputs, runs, next, entries + [e]) && Written(next.writer, entries + [e], policy)
    ensures next.older.ordinal == s.older.ordinal + FromOlder(runs.older, runs.newer, s.older.ordinal, s.newer.ordinal)
    ensures next.newer.ordinal == s.newer.ordinal + FromNewer(runs.older, runs.newer, s.older.ordinal, s.newer.ordinal)
    ensures consumed == next.older.ordinal + next.newer.ordinal - s.older.ordinal - s.newer.ordinal
  {
    var c := CompareHeads(inputs, s, runs, entries);
    consumed := if c.order == 0 then 2 else 1;
    if c.order < 0 {
      next := EmitOlder(inputs, s, c, policy, runs, entries);
    } else if c.order > 0 {
      next := EmitNewer(inputs, s, c, policy, runs, entries);
    } else {
      next := EmitBoth(inputs, s, policy, runs, entries);
    }
  }
}
