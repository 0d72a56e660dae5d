/**
 A flush whose PutBatch fails is logged and skipped: the cache is neither stored nor purged, yet
 readIndex moves past it.  Its entries leave the window at once, and come back as the newest ones when
 the ring turns onto the unpurged cache again.  This module says exactly when neither event shows.
 */
module FailedFlush {
  import opened Ring
  import opened RingHistory
  import opened RingTheorems

  // ---- Steps, with failures ----

  datatype Move<K, V> = Do(action: Action<K, V>) | Skip

  /** flush() or close() after an error. */
  function FailFlush<K, V>(s: State<K, V>): State<K, V>
    requires WellFormed(s)
  {
    var oldest := Next(s.readIndex);
    s.(readIndex := oldest, mode := if s.mode == Closing && oldest == s.writeIndex then Closed else s.mode)
  }

  predicate CanMove<K, V>(s: State<K, V>, m: Move<K, V>)
    requires WellFormed(s)
  {
    if m.Skip? then Enabled(s, FlushStore) else Enabled(s, m.action)
  }

  function MoveStep<K, V>(s: State<K, V>, m: Move<K, V>): State<K, V>
    requires WellFormed(s) && CanMove(s, m)
  {
    if m.Skip? then FailFlush(s) else Step(s, m.action)
  }

  /** What a move should do to the flat map. */
  function Intended<K, V>(table: map<K, V>, m: Move<K, V>): map<K, V> {
    if m.Do? && m.action.Commit? then Apply(table, m.action.batch) else table
  }

  // ---- What holds with failures ----

  /** The part of the ring's invariant that failed flushes keep; slots outside the window may hold anything. */
  ghost predicate Sane<K, V>(s: State<K, V>) {
    && WellFormed(s)
    && (s.mode != Closed ==> s.readIndex != s.writeIndex)
    && (s.mode == Closed ==> s.readIndex == s.writeIndex && s.phase == Idle)
    && (s.mode == Running && s.phase != Idle ==> Next(s.readIndex) != s.writeIndex)
    && (s.phase == Stored ==> Apply(s.store, s.caches[Next(s.readIndex)]) == s.store)
    && (s.phase == Purged ==> s.caches[Next(s.readIndex)] == map[])
  }

  lemma StepIsSane<K, V>(s: State<K, V>, m: Move<K, V>)
    requires Sane(s) && CanMove(s, m)
    ensures Sane(MoveStep(s, m))
  {
    if m == Do(FlushStore) {
      var lost := s.caches[Next(s.readIndex)];
      ApplyApply(s.store, lost, lost);
      assert lost + lost == lost;
    }
  }

  // ---- Overlays that change nothing ----

  /** Every entry says what the table says already. */
  ghost predicate SaysTheSame<K, V>(m: map<K, Entry<V>>, table: map<K, V>) {
    forall k :: k in m ==> Resolve(m, table, k) == Lookup(table, k)
  }

  lemma SameLookups<K, V>(a: map<K, V>, b: map<K, V>)
    requires forall k :: Lookup(a, k) == Lookup(b, k)
    ensures a == b
  {
    forall k ensures (k in a <==> k in b) && (k in a ==> a[k] == b[k]) {
      assert Lookup(a, k) == Lookup(b, k);
    }
  }

  lemma OverlayKeepsIff<K, V>(table: map<K, V>, m: map<K, Entry<V>>)
    ensures Apply(table, m) == table <==> SaysTheSame(m, table)
  {
    forall k ensures Lookup(Apply(table, m), k) == Resolve(m, table, k) {
      ApplyLookup(table, m, k);
    }
    if SaysTheSame(m, table) {
      SameLookups(Apply(table, m), table);
    }
  }

  // ---- The skip ----

  /** Key k of the oldest cache is masked by a newer cache of the window. */
  ghost predicate Masked<K, V>(s: State<K, V>, k: K)
    requires WellFormed(s)
  {
    k in Window(FailFlush(s), s.writeIndex)
  }

  /** Every entry about to be skipped is masked, or already what the store holds. */
  ghost predicate NothingLost<K, V>(s: State<K, V>)
    requires WellFormed(s)
  {
    var lost := s.caches[Next(s.readIndex)];
    forall k :: k in lost && !Masked(s, k) ==> Resolve(lost, s.store, k) == Lookup(s.store, k)
  }

  lemma {:induction false} FailedWindow<K, V>(s: State<K, V>, i: nat)
    requires WellFormed(s) && i < CACHE_COUNT
    requires 0 < Distance(s.readIndex, i)
    ensures Window(s, i) == s.caches[Next(s.readIndex)] + Window(FailFlush(s), i)
    decreases Distance(s.readIndex, i)
  {
    var oldest := Next(s.readIndex);
    if i != oldest {
      FailedWindow(s, Prev(i));
    } else {
      assert Window(s, Prev(i)) == map[];
    }
  }

  /** At the moment of the skip the flat map survives exactly when nothing is lost. */
  lemma FailedFlushKeepsViewIff<K, V>(s: State<K, V>)
    requires WellFormed(s) && s.readIndex != s.writeIndex
    ensures View(FailFlush(s)) == View(s) <==> NothingLost(s)
  {
    var lost := s.caches[Next(s.readIndex)];
    var rest := Window(FailFlush(s), s.writeIndex);
    FailedWindow(s, s.writeIndex);
    forall k
      ensures Lookup(View(s), k) == Resolve(lost + rest, s.store, k)
      ensures Lookup(View(FailFlush(s)), k) == Resolve(rest, s.store, k)
    {
      ApplyLookup(s.store, lost + rest, k);
      ApplyLookup(s.store, rest, k);
    }
    if NothingLost(s) {
      forall k ensures Lookup(View(s), k) == Lookup(View(FailFlush(s)), k) {
        assert k in lost && k !in rest ==> Resolve(lost, s.store, k) == Lookup(s.store, k);
      }
      SameLookups(View(s), View(FailFlush(s)));
    } else {
      var k :| k in lost && !Masked(s, k) && Resolve(lost, s.store, k) != Lookup(s.store, k);
      assert Lookup(View(s), k) != Lookup(View(FailFlush(s)), k);
    }
  }

  // ---- The return ----

  /** The slots of (readIndex, i] hold the same. */
  ghost predicate SameSlots<K, V>(s: State<K, V>, s': State<K, V>, i: nat)
    requires WellFormed(s) && WellFormed(s') && i < CACHE_COUNT
  {
    forall j :: 0 <= j < CACHE_COUNT && 0 < Distance(s.readIndex, j) <= Distance(s.readIndex, i)
      ==> s'.caches[j] == s.caches[j]
  }

  lemma {:induction false} SameWindow<K, V>(s: State<K, V>, s': State<K, V>, i: nat)
    requires WellFormed(s) && WellFormed(s') && i < CACHE_COUNT && s'.readIndex == s.readIndex
    requires SameSlots(s, s', i)
    ensures Window(s', i) == Window(s, i)
    decreases Distance(s.readIndex, i)
  {
    if i != s.readIndex {
      assert SameSlots(s, s', Prev(i));
      SameWindow(s, s', Prev(i));
    }
  }

  /** A rotation keeps the flat map exactly when the cache it enters says nothing new. */
  lemma RotateKeepsViewIff<K, V>(s: State<K, V>)
    requires WellFormed(s) && Enabled(s, Rotate)
    ensures View(Step(s, Rotate)) == Apply(View(s), s.caches[Next(s.writeIndex)])
    ensures View(Step(s, Rotate)) == View(s) <==> SaysTheSame(s.caches[Next(s.writeIndex)], View(s))
  {
    var s' := Step(s, Rotate);
    SameWindow(s, s', s.writeIndex);
    assert Prev(s'.writeIndex) == s.writeIndex;
    ApplyApply(s.store, Window(s, s.writeIndex), s.caches[s'.writeIndex]);
    OverlayKeepsIff(View(s), s.caches[s'.writeIndex]);
  }

  /** So does rebuild's reset, which enters cache 1. */
  lemma ResetKeepsViewIff<K, V>(s: State<K, V>)
    requires Sane(s) && Enabled(s, Reset)
    ensures View(Step(s, Reset)) == Apply(View(s), s.caches[1])
    ensures View(Step(s, Reset)) == View(s) <==> SaysTheSame(s.caches[1], View(s))
  {
    var s' := Step(s, Reset);
    assert Window(s', 0) == map[] && Window(s', 1) == Window(s', 0) + s.caches[1];
    assert map[] + s.caches[1] == s.caches[1];
    ApplyEmpty(s.store);
    OverlayKeepsIff(View(s), s.caches[1]);
  }

  // ---- Every other step ----

  /** Overwriting the newest slot leaves the older ones in the window. */
  lemma NewestSlot<K, V>(s: State<K, V>, m: map<K, Entry<V>>)
    requires WellFormed(s) && s.readIndex != s.writeIndex
    ensures SameSlots(s, s.(caches := s.caches[s.writeIndex := m]), Prev(s.writeIndex))
  {
    var r, w := s.readIndex, s.writeIndex;
    assert Distance(r, Prev(w)) == Distance(r, w) - 1;
  }

  lemma CommitWindow<K, V>(s: State<K, V>, batch: map<K, Entry<V>>)
    requires WellFormed(s) && s.readIndex != s.writeIndex && Enabled(s, Commit(batch))
    ensures Window(Step(s, Commit(batch)), s.writeIndex) == Window(s, s.writeIndex) + batch
  {
    var s', w := Step(s, Commit(batch)), s.writeIndex;
    NewestSlot(s, s.caches[w] + batch);
    SameWindow(s, s', Prev(w));
    PlusAssociates(Window(s, Prev(w)), s.caches[w], batch);
  }

  lemma PlusAssociates<K, V>(a: map<K, V>, b: map<K, V>, c: map<K, V>)
    ensures a + (b + c) == (a + b) + c
  {
  }

  lemma CommitView<K, V>(s: State<K, V>, batch: map<K, Entry<V>>)
    requires Sane(s) && Enabled(s, Commit(batch))
    ensures View(Step(s, Commit(batch))) == Apply(View(s), batch)
  {
    var s', w := Step(s, Commit(batch)), s.writeIndex;
    CommitWindow(s, batch);
    ApplyApply(s.store, Window(s, w), batch);
  }

  lemma FlushStoreView<K, V>(s: State<K, V>)
    requires Sane(s) && Enabled(s, FlushStore)
    ensures View(Step(s, FlushStore)) == View(s)
  {
    var s', w, oldest := Step(s, FlushStore), s.writeIndex, s.caches[Next(s.readIndex)];
    SameWindow(s, s', w);
    FailedWindow(s, w);
    ApplyApply(s.store, oldest, Window(s, w));
    assert oldest + Window(s, w) == Window(s, w);
  }

  lemma FlushPurgeView<K, V>(s: State<K, V>)
    requires Sane(s) && Enabled(s, FlushPurge)
    ensures View(Step(s, FlushPurge)) == View(s)
  {
    var s', w, oldest := Step(s, FlushPurge), s.writeIndex, s.caches[Next(s.readIndex)];
    FailedWindow(s, w);
    FailedWindow(s', w);
    SameWindow(FailFlush(s), FailFlush(s'), w);
    Absorbed(s.store, oldest, Window(FailFlush(s), w));
  }

  /** Entries already in the table may be left out of an overlay. */
  lemma Absorbed<K, V>(table: map<K, V>, m: map<K, Entry<V>>, rest: map<K, Entry<V>>)
    requires Apply(table, m) == table
    ensures Apply(table, m + rest) == Apply(table, map[] + rest)
  {
    ApplyApply(table, m, rest);
    assert map[] + rest == rest;
  }

  lemma FlushAdvanceView<K, V>(s: State<K, V>)
    requires Sane(s) && Enabled(s, FlushAdvance)
    ensures View(Step(s, FlushAdvance)) == View(s)
  {
    var s', w := Step(s, FlushAdvance), s.writeIndex;
    FailedWindow(s, w);
    SameWindow(FailFlush(s), s', w);
    assert map[] + Window(s', w) == Window(s', w);
  }

  /** Exactly when a move shows nothing of an earlier or present failure. */
  ghost predicate Harmless<K, V>(s: State<K, V>, m: Move<K, V>)
    requires WellFormed(s)
  {
    match m
    case Skip => NothingLost(s)
    case Do(Rotate) => SaysTheSame(s.caches[Next(s.writeIndex)], View(s))
    case Do(Reset) => SaysTheSame(s.caches[1], View(s))
    case _ => true
  }

  lemma StepExactIff<K, V>(s: State<K, V>, m: Move<K, V>)
    requires Sane(s) && CanMove(s, m)
    ensures View(MoveStep(s, m)) == Intended(View(s), m) <==> Harmless(s, m)
  {
    match m
    case Skip => FailedFlushKeepsViewIff(s);
    case Do(Rotate) => RotateKeepsViewIff(s);
    case Do(Reset) => ResetKeepsViewIff(s);
    case Do(Commit(batch)) => CommitView(s, batch);
    case Do(FlushStore) => FlushStoreView(s);
    case Do(FlushPurge) => FlushPurgeView(s);
    case Do(FlushAdvance) => FlushAdvanceView(s);
    case Do(BeginClose) => SameWindow(s, MoveStep(s, m), s.writeIndex);
  }

  // ---- Runs ----

  ghost predicate Possible<K, V>(s: State<K, V>, run: seq<Move<K, V>>)
    requires WellFormed(s)
    decreases |run|, 0
  {
    run == [] || (Possible(s, run[..|run| - 1]) && CanMove(After(s, run[..|run| - 1]), run[|run| - 1]))
  }

  ghost function After<K, V>(s: State<K, V>, run: seq<Move<K, V>>): (s': State<K, V>)
    requires WellFormed(s) && Possible(s, run)
    ensures WellFormed(s')
    decreases |run|, 1
  {
    if run == [] then s else MoveStep(After(s, run[..|run| - 1]), run[|run| - 1])
  }

  lemma {:induction false} RunIsSane<K, V>(s: State<K, V>, run: seq<Move<K, V>>)
    requires Sane(s) && Possible(s, run)
    ensures Sane(After(s, run))
    decreases |run|
  {
    if run != [] {
      RunIsSane(s, run[..|run| - 1]);
      StepIsSane(After(s, run[..|run| - 1]), run[|run| - 1]);
    }
  }

  /** The flat map the committed batches call for. */
  ghost function Called<K, V>(table: map<K, V>, run: seq<Move<K, V>>): map<K, V> {
    if run == [] then table else Intended(Called(table, run[..|run| - 1]), run[|run| - 1])
  }

  /** At every moment of the run the flat map is the one called for. */
  ghost predicate AlwaysExact<K, V>(s: State<K, V>, run: seq<Move<K, V>>)
    requires WellFormed(s) && Possible(s, run)
    decreases |run|
  {
    run == [] || (AlwaysExact(s, run[..|run| - 1]) && View(After(s, run)) == Called(View(s), run))
  }

  ghost predicate AllHarmless<K, V>(s: State<K, V>, run: seq<Move<K, V>>)
    requires WellFormed(s) && Possible(s, run)
    decreases |run|
  {
    run == [] || (AllHarmless(s, run[..|run| - 1]) && Harmless(After(s, run[..|run| - 1]), run[|run| - 1]))
  }

  /**
   Runs with failed flushes, any number of them: the flat map is right at every moment if and only if
   no skip loses an entry and no rotation or reset enters a cache that says something else.
   */
  lemma {:induction false} RunExactIff<K, V>(s: State<K, V>, run: seq<Move<K, V>>)
    requires Sane(s) && Possible(s, run)
    ensures AlwaysExact(s, run) <==> AllHarmless(s, run)
    ensures AlwaysExact(s, run) ==> View(After(s, run)) == Called(View(s), run)
    decreases |run|
  {
    if run != [] {
      var init, m := run[..|run| - 1], run[|run| - 1];
      RunExactIff(s, init);
      RunIsSane(s, init);
      StepExactIff(After(s, init), m);
    }
  }

  lemma Extend<K, V>(s: State<K, V>, run: seq<Move<K, V>>, m: Move<K, V>)
    requires WellFormed(s) && Possible(s, run) && CanMove(After(s, run), m)
    ensures Possible(s, run + [m]) && After(s, run + [m]) == MoveStep(After(s, run), m)
  {
    assert (run + [m])[..|run|] == run;
  }

  lemma LastMove<K, V>(s: State<K, V>, run: seq<Move<K, V>>)
    requires WellFormed(s) && Possible(s, run) && run != []
    ensures var init, m := run[..|run| - 1], run[|run| - 1];
            Possible(s, init) && CanMove(After(s, init), m) && After(s, run) == MoveStep(After(s, init), m)
  {
  }

  lemma JoinLast<T>(a: seq<T>, b: seq<T>)
    requires b != []
    ensures a + b == (a + b[..|b| - 1]) + [b[|b| - 1]]
  {
  }

  lemma {:induction false} JoinRuns<K, V>(s: State<K, V>, a: seq<Move<K, V>>, b: seq<Move<K, V>>)
    requires WellFormed(s) && Possible(s, a) && Possible(After(s, a), b)
    ensures Possible(s, a + b) && After(s, a + b) == After(After(s, a), b)
    decreases |b|
  {
    if b == [] {
      assert a + b == a;
    } else {
      var n, middle := |b| - 1, After(s, a);
      LastMove(middle, b);
      JoinRuns(s, a, b[..n]);
      Extend(s, a + b[..n], b[n]);
      JoinLast(a, b);
    }
  }

  lemma {:induction false} JoinHarmless<K, V>(s: State<K, V>, a: seq<Move<K, V>>, b: seq<Move<K, V>>)
    requires WellFormed(s) && Possible(s, a) && Possible(After(s, a), b) && Possible(s, a + b)
    ensures AllHarmless(s, a + b) <==> AllHarmless(s, a) && AllHarmless(After(s, a), b)
    decreases |b|
  {
    if b == [] {
      assert a + b == a;
    } else {
      var n := |b| - 1;
      assert (a + b)[..|a + b| - 1] == a + b[..n];
      JoinHarmless(s, a, b[..n]);
      JoinRuns(s, a, b[..n]);
    }
  }

  lemma {:induction false} CalledJoin<K, V>(table: map<K, V>, a: seq<Move<K, V>>, b: seq<Move<K, V>>)
    ensures Called(table, a + b) == Called(Called(table, a), b)
    decreases |b|
  {
    if b == [] {
      assert a + b == a;
    } else {
      var n := |b| - 1;
      CalledJoin(table, a, b[..n]);
      assert (a + b)[..|a + b| - 1] == a + b[..n];
    }
  }

  lemma OneMove<K, V>(s: State<K, V>, m: Move<K, V>)
    requires WellFormed(s) && CanMove(s, m)
    ensures Possible(s, [m]) && After(s, [m]) == MoveStep(s, m)
    ensures AllHarmless(s, [m]) <==> Harmless(s, m)
  {
    assert [m][..0] == [];
  }

  // ---- One skipped cache ----

  predicate Enters<K, V>(s: State<K, V>, m: Move<K, V>, i: nat)
    requires WellFormed(s)
  {
    (m == Do(Rotate) && Next(s.writeIndex) == i) || (m == Do(Reset) && i == 1)
  }

  /** Slots outside the window are empty, but for the stale ones. */
  ghost predicate EmptyOutside<K, V>(s: State<K, V>, stale: set<nat>) {
    && WellFormed(s)
    && (forall j :: 0 <= j < CACHE_COUNT && !InWindow(s, j) && j !in stale ==> s.caches[j] == map[])
  }

  /** Stale slots stay outside the window. */
  ghost predicate Outside<K, V>(s: State<K, V>, stale: set<nat>) {
    WellFormed(s) && forall i :: i in stale ==> i < CACHE_COUNT && !InWindow(s, i)
  }

  /** A successful move that enters no stale slot is harmless and leaves the stale slots as they are. */
  lemma StepOutside<K, V>(s: State<K, V>, m: Move<K, V>, stale: set<nat>)
    requires Sane(s) && CanMove(s, m) && m.Do?
    requires EmptyOutside(s, stale) && Outside(s, stale)
    requires forall i :: i in stale ==> !Enters(s, m, i)
    ensures Harmless(s, m)
    ensures EmptyOutside(MoveStep(s, m), stale) && Outside(MoveStep(s, m), stale)
    ensures forall i :: i in stale ==> MoveStep(s, m).caches[i] == s.caches[i]
  {
    var s' := MoveStep(s, m);
    if m == Do(Rotate) {
      assert !InWindow(s, Next(s.writeIndex));
    } else if m == Do(Reset) {
      assert !InWindow(s, 1);
    }
    forall j | 0 <= j < CACHE_COUNT && !InWindow(s', j) && j !in stale ensures s'.caches[j] == map[] {
      if m == Do(FlushAdvance) && j == Next(s.readIndex) {
        assert s.caches[j] == map[];
      } else if m == Do(Reset) {
        assert !InWindow(s, j);
      }
    }
  }

  ghost predicate Successful<K, V>(run: seq<Move<K, V>>) {
    forall i :: 0 <= i < |run| ==> run[i].Do?
  }

  ghost predicate NeverEnters<K, V>(s: State<K, V>, run: seq<Move<K, V>>, stale: set<nat>)
    requires WellFormed(s) && Possible(s, run)
    decreases |run|
  {
    run == [] ||
    (NeverEnters(s, run[..|run| - 1], stale) &&
     forall i :: i in stale ==> !Enters(After(s, run[..|run| - 1]), run[|run| - 1], i))
  }

  lemma {:induction false} RunOutside<K, V>(s: State<K, V>, run: seq<Move<K, V>>, stale: set<nat>)
    requires Sane(s) && Possible(s, run) && Successful(run) && NeverEnters(s, run, stale)
    requires EmptyOutside(s, stale) && Outside(s, stale)
    ensures AllHarmless(s, run)
    ensures EmptyOutside(After(s, run), stale) && Outside(After(s, run), stale)
    ensures forall i :: i in stale ==> After(s, run).caches[i] == s.caches[i]
    decreases |run|
  {
    if run != [] {
      RunOutside(s, run[..|run| - 1], stale);
      RunIsSane(s, run[..|run| - 1]);
      StepOutside(After(s, run[..|run| - 1]), run[|run| - 1], stale);
    }
  }

  lemma {:induction false} NothingToEnter<K, V>(s: State<K, V>, run: seq<Move<K, V>>)
    requires WellFormed(s) && Possible(s, run)
    ensures NeverEnters(s, run, {})
    decreases |run|
  {
    if run != [] {
      NothingToEnter(s, run[..|run| - 1]);
    }
  }

  /** Without stale slots every successful run is harmless. */
  lemma CleanRun<K, V>(s: State<K, V>, run: seq<Move<K, V>>)
    requires Sane(s) && Possible(s, run) && Successful(run) && EmptyOutside(s, {})
    ensures AllHarmless(s, run) && EmptyOutside(After(s, run), {})
  {
    NothingToEnter(s, run);
    RunOutside(s, run, {});
  }

  lemma InitialClean<K, V>(store: map<K, V>)
    ensures Sane(Initial(store)) && EmptyOutside(Initial(store), {}) && View(Initial(store)) == store
  {
    var s := Initial(store);
    assert Window(s, 0) == map[] && Window(s, 1) == Window(s, 0) + s.caches[1] == map[];
    ApplyEmpty(store);
  }

  /** A skip makes exactly one slot stale. */
  lemma SkipMakesStale<K, V>(s: State<K, V>)
    requires Sane(s) && CanMove(s, Skip) && EmptyOutside(s, {})
    ensures EmptyOutside(FailFlush(s), {Next(s.readIndex)}) && Outside(FailFlush(s), {Next(s.readIndex)})
  {
    forall j | 0 <= j < CACHE_COUNT && !InWindow(FailFlush(s), j) && j != Next(s.readIndex) ensures !InWindow(s, j) {
    }
  }

  /** Entering the stale slot takes it back into the window. */
  lemma EntryCleans<K, V>(s: State<K, V>, m: Move<K, V>, i: nat)
    requires Sane(s) && CanMove(s, m) && EmptyOutside(s, {i}) && Enters(s, m, i)
    ensures EmptyOutside(MoveStep(s, m), {})
    ensures Harmless(s, m) <==> SaysTheSame(s.caches[i], View(s))
  {
    var s' := MoveStep(s, m);
    forall j | 0 <= j < CACHE_COUNT && !InWindow(s', j) ensures s'.caches[j] == map[] {
      assert InWindow(s', i);
      assert !InWindow(s, j) && j != i;
    }
  }

  /** Until the ring returns to the skipped cache, all is well exactly when the skip lost nothing. */
  lemma SkippedCacheUntilReturnIff<K, V>(store: map<K, V>, before: seq<Move<K, V>>, between: seq<Move<K, V>>)
    requires Possible(Initial(store), before) && Successful(before) && Successful(between)
    requires CanMove(After(Initial(store), before), Skip)
    requires var s := After(Initial(store), before);
             && Possible(FailFlush(s), between)
             && NeverEnters(FailFlush(s), between, {Next(s.readIndex)})
    ensures var s, i, run := After(Initial(store), before), Next(After(Initial(store), before).readIndex),
                             before + [Skip] + between;
            && Possible(Initial(store), run)
            && After(Initial(store), run) == After(FailFlush(s), between)
            && EmptyOutside(After(Initial(store), run), {i})
            && After(Initial(store), run).caches[i] == s.caches[i]
            && (AlwaysExact(Initial(store), run) <==> NothingLost(s))
  {
    var s0 := Initial(store);
    var s := After(s0, before);
    InitialClean(store);
    CleanRun(s0, before);
    RunIsSane(s0, before);
    StepIsSane(s, Skip);
    OneMove(s, Skip);
    SkipMakesStale(s);
    RunOutside(FailFlush(s), between, {Next(s.readIndex)});
    JoinRuns(s0, before, [Skip]);
    JoinHarmless(s0, before, [Skip]);
    JoinRuns(s0, before + [Skip], between);
    JoinHarmless(s0, before + [Skip], between);
    RunExactIff(s0, before + [Skip] + between);
  }

  /**
   The whole story of one failed flush.  The flat map is right before the skip, after it, when the ring
   returns to the unpurged cache, and ever after, if and only if the skip lost nothing and, on the return,
   the cache says nothing but what the commits so far call for.
   */
  lemma SkippedCacheIff<K, V>(store: map<K, V>, before: seq<Move<K, V>>, between: seq<Move<K, V>>,
                              enter: Move<K, V>, after: seq<Move<K, V>>)
    requires Possible(Initial(store), before) && Successful(before) && Successful(between)
    requires CanMove(After(Initial(store), before), Skip)
    requires var s := After(Initial(store), before);
             && Possible(FailFlush(s), between)
             && NeverEnters(FailFlush(s), between, {Next(s.readIndex)})
    requires var s, s' := After(Initial(store), before), After(FailFlush(After(Initial(store), before)), between);
             && CanMove(s', enter) && Enters(s', enter, Next(s.readIndex))
             && Possible(MoveStep(s', enter), after) && Successful(after)
    ensures var s, run := After(Initial(store), before), before + [Skip] + between + [enter] + after;
            && Possible(Initial(store), run)
            && (AlwaysExact(Initial(store), run) <==>
                NothingLost(s) && SaysTheSame(s.caches[Next(s.readIndex)], Called(store, before + between)))
  {
    var s0, first := Initial(store), before + [Skip] + between;
    var s, s' := After(s0, before), After(FailFlush(After(s0, before)), between);
    InitialClean(store);
    SkippedCacheUntilReturnIff(store, before, between);
    RunExactIff(s0, first);
    RunIsSane(s0, first);
    EntryCleans(s', enter, Next(s.readIndex));
    StepIsSane(s', enter);
    OneMove(s', enter);
    JoinRuns(s0, first, [enter]);
    JoinHarmless(s0, first, [enter]);
    CleanRun(MoveStep(s', enter), after);
    JoinRuns(s0, first + [enter], after);
    JoinHarmless(s0, first + [enter], after);
    RunExactIff(s0, first + [enter] + after);
    SkipCallsNothing(store, before, between);
  }

  lemma SkipCallsNothing<K, V>(table: map<K, V>, before: seq<Move<K, V>>, between: seq<Move<K, V>>)
    ensures Called(table, before + [Skip] + between) == Called(table, before + between)
  {
    CalledJoin(table, before + [Skip], between);
    CalledJoin(table, before, [Skip]);
    CalledJoin(table, before, between);
    var one: seq<Move<K, V>> := [Skip];
    assert one[..0] == [];
  }

  // ---- What goes wrong ----

  function NewRing(): State<int, int> { Initial(map[]) }

  function Written(n: int): Move<int, int> { Do(Commit(map[7 := Live(n)])) }

  /** A write that is only in the skipped cache disappears. */
  lemma SkipLosesWrite() returns (run: seq<Move<int, int>>)
    ensures run == [Written(1), Do(Rotate), Skip] && Possible(NewRing(), run)
    ensures View(After(NewRing(), run)) == map[] && Called(map[], run) == map[7 := 1]
  {
    var s0 := NewRing();
    InitialClean<int, int>(map[]);
    run := [];
    Extend(s0, run, Written(1));
    run := run + [Written(1)];
    CommitView(s0, map[7 := Live(1)]);
    assert Called(map[], run) == map[7 := 1] by { assert run[..0] == []; ApplyOne<int, int>(map[], 7, Live(1)); }
    Extend(s0, run, Do(Rotate));
    assert (run + [Do(Rotate)])[..1] == run;
    run := run + [Do(Rotate)];
    Extend(s0, run, Skip);
    assert (run + [Skip])[..2] == run;
    run := run + [Skip];
    var s := After(s0, run);
    assert Window(s, 1) == map[] && Window(s, 2) == Window(s, 1) + s.caches[2];
    ApplyEmpty(s.store);
  }

  /** A ring whose cache 1 holds the older write of key 7. */
  function Held(second: map<int, Entry<int>>, w: nat, r: nat, store: map<int, int>, phase: Phase): State<int, int> {
    State([map[], map[7 := Live(1)], second, map[], map[], map[]], w, r, store, phase, Running)
  }

  lemma TwoWrites() returns (run: seq<Move<int, int>>)
    ensures Possible(NewRing(), run) && TurnsWhenUsed(NewRing(), run)
    ensures run == [Written(1), Do(Rotate), Written(2), Do(Rotate), Skip]
    ensures After(NewRing(), run) == Held(map[7 := Live(2)], 3, 1, map[], Idle)
  {
    var s0 := NewRing();
    InitialClean<int, int>(map[]);
    run := [];
    TurnsOn(s0, run, Written(1));
    run := run + [Written(1)];
    var none: map<int, Entry<int>> := map[];
    assert none + map[7 := Live(1)] == map[7 := Live(1)] && none + map[7 := Live(2)] == map[7 := Live(2)];
    assert After(s0, run).caches == [map[], map[7 := Live(1)], map[], map[], map[], map[]];
    assert 7 in After(s0, run).caches[1];
    TurnsOn(s0, run, Do(Rotate));
    run := run + [Do(Rotate)];
    TurnsOn(s0, run, Written(2));
    run := run + [Written(2)];
    assert After(s0, run).caches == Held(map[7 := Live(2)], 3, 1, map[], Idle).caches;
    assert 7 in After(s0, run).caches[2];
    TurnsOn(s0, run, Do(Rotate));
    run := run + [Do(Rotate)];
    TurnsOn(s0, run, Skip);
    run := run + [Skip];
  }

  lemma Onward(run: seq<Move<int, int>>, later: seq<Move<int, int>>, m: Move<int, int>) returns (later': seq<Move<int, int>>)
    requires Possible(NewRing(), run + later) && CanMove(After(NewRing(), run + later), m)
    requires TurnsWhenUsed(NewRing(), run + later) && m != Do(Rotate)
    ensures later' == later + [m] && Possible(NewRing(), run + later') && TurnsWhenUsed(NewRing(), run + later')
    ensures After(NewRing(), run + later') == MoveStep(After(NewRing(), run + later), m)
  {
    later' := later + [m];
    TurnsOn(NewRing(), run + later, m);
    assert run + later' == (run + later) + [m];
  }

  /** The newer write is stored, purged and passed. */
  lemma SecondFlushed(run: seq<Move<int, int>>) returns (later: seq<Move<int, int>>)
    requires Possible(NewRing(), run) && TurnsWhenUsed(NewRing(), run)
    requires After(NewRing(), run) == Held(map[7 := Live(2)], 3, 1, map[], Idle)
    ensures later == [Do(FlushStore), Do(FlushPurge), Do(FlushAdvance)]
    ensures Possible(NewRing(), run + later) && TurnsWhenUsed(NewRing(), run + later)
    ensures After(NewRing(), run + later) == Held(map[], 3, 2, map[7 := 2], Idle)
  {
    later := [];
    assert run + later == run;
    ApplyOne<int, int>(map[], 7, Live(2));
    later := Onward(run, later, Do(FlushStore));
    later := Onward(run, later, Do(FlushPurge));
    assert After(NewRing(), run + later).caches == Held(map[], 3, 1, map[7 := 2], Purged).caches;
    later := Onward(run, later, Do(FlushAdvance));
  }

  /** GetCache turns only away from a cache that holds something. */
  ghost predicate TurnsWhenUsed<K, V>(s: State<K, V>, run: seq<Move<K, V>>)
    requires WellFormed(s) && Possible(s, run)
    decreases |run|
  {
    run == [] ||
    var before, m := After(s, run[..|run| - 1]), run[|run| - 1];
    TurnsWhenUsed(s, run[..|run| - 1]) && (m == Do(Rotate) ==> before.caches[before.writeIndex] != map[])
  }

  lemma TurnsOn<K, V>(s: State<K, V>, run: seq<Move<K, V>>, m: Move<K, V>)
    requires WellFormed(s) && Possible(s, run) && CanMove(After(s, run), m) && TurnsWhenUsed(s, run)
    requires m == Do(Rotate) ==> After(s, run).caches[After(s, run).writeIndex] != map[]
    ensures Possible(s, run + [m]) && TurnsWhenUsed(s, run + [m])
    ensures After(s, run + [m]) == MoveStep(After(s, run), m)
  {
    Extend(s, run, m);
    assert (run + [m])[..|run|] == run;
  }

  /** Another key. */
  const OTHER: Move<int, int> := Do(Commit(map[8 := Live(0)]))

  const FOUR_ROUNDS := [OTHER, Do(Rotate), OTHER, Do(Rotate), OTHER, Do(Rotate), OTHER, Do(Rotate)]

  /** A write of another key into an empty cache, and the rotation it makes due. */
  lemma Round(run: seq<Move<int, int>>) returns (more: seq<Move<int, int>>)
    requires Possible(NewRing(), run) && TurnsWhenUsed(NewRing(), run)
    requires var s := After(NewRing(), run);
             s.mode == Running && s.caches[s.writeIndex] == map[] && Next(s.writeIndex) != s.readIndex
    ensures more == run + [OTHER, Do(Rotate)] && Possible(NewRing(), more) && TurnsWhenUsed(NewRing(), more)
    ensures var s := After(NewRing(), run);
            After(NewRing(), more) ==
            s.(caches := s.caches[s.writeIndex := map[8 := Live(0)]], writeIndex := Next(s.writeIndex))
  {
    var s := After(NewRing(), run);
    assert s.caches[s.writeIndex] + map[8 := Live(0)] == map[8 := Live(0)];
    TurnsOn(NewRing(), run, OTHER);
    assert 8 in After(NewRing(), run + [OTHER]).caches[s.writeIndex];
    TurnsOn(NewRing(), run + [OTHER], Do(Rotate));
    more := run + [OTHER] + [Do(Rotate)];
  }

  /** The ring as the skip leaves it, back on cache 1. */
  const RETURNED: State<int, int> :=
    State([map[8 := Live(0)], map[7 := Live(1)], map[], map[8 := Live(0)], map[8 := Live(0)], map[8 := Live(0)]],
          1, 2, map[7 := 2], Idle, Running)

  lemma FourRounds(run: seq<Move<int, int>>) returns (more: seq<Move<int, int>>)
    requires Possible(NewRing(), run) && TurnsWhenUsed(NewRing(), run)
    requires After(NewRing(), run) == Held(map[], 3, 2, map[7 := 2], Idle)
    ensures more == run + FOUR_ROUNDS
    ensures Possible(NewRing(), more) && TurnsWhenUsed(NewRing(), more) && After(NewRing(), more) == RETURNED
  {
    more := Round(run);
    more := Round(more);
    more := Round(more);
    more := Round(more);
    assert After(NewRing(), more).caches == RETURNED.caches;
  }

  lemma ViewsOfHeld()
    ensures View(Held(map[7 := Live(2)], 3, 1, map[], Idle)) == map[7 := 2]
    ensures View(RETURNED) == map[7 := 1, 8 := 0]
  {
    var s := Held(map[7 := Live(2)], 3, 1, map[], Idle);
    assert Window(s, 1) == map[] && Window(s, 2) == map[] + s.caches[2] && Window(s, 3) == Window(s, 2) + s.caches[3];
    assert Window(s, 3) == map[7 := Live(2)];
    ApplyOne<int, int>(map[], 7, Live(2));
    assert Window(RETURNED, 2) == map[] && Window(RETURNED, 3) == map[8 := Live(0)];
    assert Window(RETURNED, 4) == Window(RETURNED, 3) + map[8 := Live(0)] == map[8 := Live(0)];
    assert Window(RETURNED, 5) == Window(RETURNED, 4) + map[8 := Live(0)] == map[8 := Live(0)];
    assert Window(RETURNED, 0) == Window(RETURNED, 5) + map[8 := Live(0)] == map[8 := Live(0)];
    assert Window(RETURNED, 1) == Window(RETURNED, 0) + map[7 := Live(1)] == map[8 := Live(0)][7 := Live(1)];
    ApplyPut(map[7 := 2], map[8 := Live(0)], 7, Live(1));
    ApplyOne(map[7 := 2], 8, Live(0));
  }

  /**
   A skipped write that is masked does no harm at first.  Once the newer write has been stored, and writes of
   another key have made four rotations due, the ring is back on the unpurged cache, and the older value of
   key 7 is the one that is read, although nothing was committed to key 7 since.
   */
  lemma StaleEntryReturns() returns (run: seq<Move<int, int>>, later: seq<Move<int, int>>)
    ensures run == [Written(1), Do(Rotate), Written(2), Do(Rotate), Skip]
    ensures later == [Do(FlushStore), Do(FlushPurge), Do(FlushAdvance)] + FOUR_ROUNDS
    ensures Possible(NewRing(), run) && Possible(NewRing(), run + later) && TurnsWhenUsed(NewRing(), run + later)
    ensures View(After(NewRing(), run)) == map[7 := 2]
    ensures View(After(NewRing(), run + later)) == map[7 := 1, 8 := 0]
  {
    run := TwoWrites();
    var flushed := SecondFlushed(run);
    var all := FourRounds(run + flushed);
    later := flushed + FOUR_ROUNDS;
    assert all == run + later;
    ViewsOfHeld();
  }
}
