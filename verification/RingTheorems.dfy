/**
 The promises of the storage layer over every run from a fresh ring: it refines one flat
 map, keeps the ring invariant, and leaves a store that is always a prefix of the commits.
 */
module RingTheorems {
  import opened Ring
  import opened RingHistory

  /** The history of a run from a fresh ring. */
  ghost function RunHistory<K, V>(store: map<K, V>, run: seq<Action<K, V>>): (h: History<K, V>)
    requires ValidRun(Initial(store), run)
    ensures Agrees(Exec(Initial(store), run), h)
    ensures h.base == store && h.Log() == Commits(run)
    ensures run != [] ==> h == Advance(RunHistory(store, run[..|run| - 1]), run[|run| - 1])
    decreases |run|
  {
    if run == [] then
      InitialAgrees(store);
      InitialHistory(store)
    else
      var s, h := Exec(Initial(store), run[..|run| - 1]), RunHistory(store, run[..|run| - 1]);
      StepAgrees(s, h, run[|run| - 1]);
      AdvanceLog(h, run[|run| - 1]);
      Advance(h, run[|run| - 1])
  }

  // ---- Refinement of one flat map ----

  /** Entering an epoch that has not been purged adds what it wrote. */
  lemma WindowStep<K, V>(s: State<K, V>, h: History<K, V>, e: nat)
    requires Agrees(s, h) && PurgedEpoch(s, h) < e <= h.Current()
    ensures Window(s, Slot(e)) == Window(s, Slot(e - 1)) + h.Content(e)
  {
    SlotDistinct(h.flushed, e);
    SlotNext(e - 1);
    assert SlotHolds(s, h, e);
  }

  /** Up to the last purged epoch the window holds nothing. */
  lemma WindowPurged<K, V>(s: State<K, V>, h: History<K, V>)
    requires Agrees(s, h)
    ensures Window(s, Slot(PurgedEpoch(s, h))) == map[]
  {
    var p := PurgedEpoch(s, h);
    if p > h.flushed {
      SlotDistinct(h.flushed, p);
      SlotNext(h.flushed);
      assert SlotHolds(s, h, p);
      assert Window(s, s.readIndex) == map[];
    }
  }

  /** Above epoch p the window grows epoch by epoch, starting from nothing. */
  ghost predicate WindowGrows<K, V>(s: State<K, V>, h: History<K, V>, p: nat) {
    && WellFormed(s)
    && Window(s, Slot(p)) == map[]
    && forall e: nat :: p < e < |h.epochs| ==> GrowsAt(s, h, e)
  }

  ghost predicate GrowsAt<K, V>(s: State<K, V>, h: History<K, V>, e: nat)
    requires WellFormed(s) && 0 < e < |h.epochs|
  {
    Window(s, Slot(e)) == Window(s, Slot(e - 1)) + h.Content(e)
  }

  lemma AgreesGrows<K, V>(s: State<K, V>, h: History<K, V>)
    requires Agrees(s, h)
    ensures WindowGrows(s, h, PurgedEpoch(s, h))
  {
    WindowPurged(s, h);
    forall e: nat | PurgedEpoch(s, h) < e < |h.epochs| ensures GrowsAt(s, h, e) {
      WindowStep(s, h, e);
    }
  }

  /** Overlaying the window up to epoch e on the map of the epochs up to p replays every epoch up to e. */
  lemma {:induction false} WindowReplays<K, V>(s: State<K, V>, h: History<K, V>, p: nat, e: nat)
    requires WindowGrows(s, h, p) && p <= e < |h.epochs|
    ensures Apply(h.Through(p), Window(s, Slot(e))) == h.Through(e)
    decreases e
  {
    if e == p {
      ApplyEmpty(h.Through(p));
    } else {
      WindowReplays(s, h, p, e - 1);
      assert GrowsAt(s, h, e);
      ThroughNext(h, e - 1);
      ApplyApply(h.Through(p), Window(s, Slot(e - 1)), h.Content(e));
    }
  }

  lemma ApplyTwice<K, V>(table: map<K, V>, first: map<K, Entry<V>>, m: map<K, Entry<V>>)
    requires first.Keys <= m.Keys
    ensures Apply(Apply(table, first), m) == Apply(table, m)
  {
    ApplyApply(table, first, m);
    assert first + m == m;
  }

  /** The window contains every key of the oldest cache. */
  lemma {:induction false} WindowCovers<K, V>(s: State<K, V>, i: nat)
    requires WellFormed(s) && i < CACHE_COUNT && i != s.readIndex
    ensures s.caches[Next(s.readIndex)].Keys <= Window(s, i).Keys
    decreases Distance(s.readIndex, i)
  {
    if i != Next(s.readIndex) {
      WindowCovers(s, Prev(i));
    }
  }

  /** Between PutBatch and purge the oldest cache is both in the store and in the window. */
  lemma StoredTwice<K, V>(s: State<K, V>, h: History<K, V>)
    requires Agrees(s, h) && s.phase == Stored
    ensures View(s) == Apply(h.Through(h.flushed), Window(s, s.writeIndex))
  {
    SlotDistinct(h.flushed, h.Current());
    SlotNext(h.flushed);
    assert SlotHolds(s, h, h.flushed + 1);
    ThroughNext(h, h.flushed);
    WindowCovers(s, s.writeIndex);
    ApplyTwice(h.Through(h.flushed), h.Content(h.flushed + 1), Window(s, s.writeIndex));
  }

  /** The live window over the store is the fold of everything committed so far. */
  lemma ViewIsLog<K, V>(s: State<K, V>, h: History<K, V>)
    requires Agrees(s, h)
    ensures View(s) == Apply(h.base, Fold(h.Log()))
  {
    AgreesGrows(s, h);
    WindowReplays(s, h, PurgedEpoch(s, h), h.Current());
    assert h.epochs[..h.Current() + 1] == h.epochs;
    if s.phase == Stored {
      StoredTwice(s, h);
    }
  }

  /** A commit changes the flat map by its batch; every other step leaves it unchanged. */
  lemma StepRefines<K, V>(s: State<K, V>, h: History<K, V>, a: Action<K, V>)
    requires Agrees(s, h) && Enabled(s, a)
    ensures View(Step(s, a)) == if a.Commit? then Apply(View(s), a.batch) else View(s)
  {
    StepAgrees(s, h, a);
    ViewIsLog(s, h);
    ViewIsLog(Step(s, a), Advance(h, a));
    AdvanceLog(h, a);
    if a.Commit? {
      FoldAppend(h.Log(), a.batch);
      ApplyApply(h.base, Fold(h.Log()), a.batch);
    } else {
      assert h.Log() + [] == h.Log();
    }
  }

  /** Refinement: after any run the ring and store together are the commits applied in order. */
  lemma RunRefines<K, V>(store: map<K, V>, run: seq<Action<K, V>>)
    requires ValidRun(Initial(store), run)
    ensures View(Exec(Initial(store), run)) == Apply(store, Fold(Commits(run)))
  {
    ViewIsLog(Exec(Initial(store), run), RunHistory(store, run));
  }

  /** The flat map before and after the last step of a run. */
  lemma RunStepView<K, V>(store: map<K, V>, run: seq<Action<K, V>>)
    requires run != [] && ValidRun(Initial(store), run)
    ensures var before, last := View(Exec(Initial(store), run[..|run| - 1])), run[|run| - 1];
            View(Exec(Initial(store), run)) == if last.Commit? then Apply(before, last.batch) else before
  {
    var init, last := run[..|run| - 1], run[|run| - 1];
    RunRefines(store, run);
    RunRefines(store, init);
    if last.Commit? {
      FoldAppend(Commits(init), last.batch);
      ApplyApply(store, Fold(Commits(init)), last.batch);
    } else {
      assert Commits(init) + [] == Commits(init);
    }
  }

  lemma RunExtended<K, V>(store: map<K, V>, run: seq<Action<K, V>>, a: Action<K, V>)
    requires ValidRun(Initial(store), run) && Enabled(Exec(Initial(store), run), a)
    ensures ValidRun(Initial(store), run + [a])
    ensures View(Exec(Initial(store), run + [a])) ==
            if a.Commit? then Apply(View(Exec(Initial(store), run)), a.batch) else View(Exec(Initial(store), run))
  {
    assert (run + [a])[..|run|] == run;
    RunStepView(store, run + [a]);
  }

  ghost predicate Quiet<K, V>(steps: seq<Action<K, V>>) {
    forall i :: 0 <= i < |steps| ==> !steps[i].Commit?
  }

  lemma QuietStep<K, V>(store: map<K, V>, run: seq<Action<K, V>>, a: Action<K, V>)
    requires ValidRun(Initial(store), run + [a]) && !a.Commit?
    ensures ValidRun(Initial(store), run)
    ensures View(Exec(Initial(store), run + [a])) == View(Exec(Initial(store), run))
  {
    assert (run + [a])[..|run|] == run;
    RunStepView(store, run + [a]);
  }

  /** Rotations, flush phases, close and rebuild leave the flat map alone, however many there are. */
  lemma {:induction false} QuietStepsKeepView<K, V>(store: map<K, V>, run: seq<Action<K, V>>, steps: seq<Action<K, V>>)
    requires ValidRun(Initial(store), run + steps) && Quiet(steps)
    ensures ValidRun(Initial(store), run)
    ensures View(Exec(Initial(store), run + steps)) == View(Exec(Initial(store), run))
    decreases |steps|
  {
    if steps == [] {
      assert run + steps == run;
    } else {
      var n := |steps| - 1;
      assert run + steps == (run + steps[..n]) + [steps[n]];
      QuietStep(store, run + steps[..n], steps[n]);
      QuietStepsKeepView(store, run, steps[..n]);
    }
  }

  // ---- Ring invariant ----

  /** Slot i is in the cyclic interval (readIndex, writeIndex]. */
  ghost predicate InWindow<K, V>(s: State<K, V>, i: nat)
    requires WellFormed(s) && i < CACHE_COUNT
  {
    0 < Distance(s.readIndex, i) <= Distance(s.readIndex, s.writeIndex)
  }

  ghost predicate RingInvariant<K, V>(s: State<K, V>) {
    && WellFormed(s)
    && (s.mode == Running ==> s.writeIndex != s.readIndex)
    && (s.mode == Closed ==> s.writeIndex == s.readIndex && View(s) == s.store)
    && (forall i :: 0 <= i < CACHE_COUNT && !InWindow(s, i) ==> s.caches[i] == map[])
  }

  lemma AgreesGivesInvariant<K, V>(s: State<K, V>, h: History<K, V>)
    requires Agrees(s, h)
    ensures RingInvariant(s)
  {
    if h.flushed < h.Current() {
      SlotDistinct(h.flushed, h.Current());
    } else {
      ApplyEmpty(s.store);
    }
    SlotShift(h.flushed, h.Current() - h.flushed);
    forall i | 0 <= i < CACHE_COUNT && !InWindow(s, i)
      ensures s.caches[i] == map[]
    {
      var d := Distance(s.readIndex, i);
      var e := if d == 0 then h.flushed + CACHE_COUNT else h.flushed + d;
      SlotShift(h.flushed, e - h.flushed);
      assert Slot(e) == i && SlotHolds(s, h, e);
    }
  }

  /** In every reachable state the ring invariant holds, and rotation enters an empty cache. */
  lemma RunKeepsInvariant<K, V>(store: map<K, V>, run: seq<Action<K, V>>)
    requires ValidRun(Initial(store), run)
    ensures var s := Exec(Initial(store), run);
            && RingInvariant(s)
            && (Enabled(s, Rotate) ==> s.caches[Next(s.writeIndex)] == map[])
  {
    var s, h := Exec(Initial(store), run), RunHistory(store, run);
    AgreesGivesInvariant(s, h);
    if Enabled(s, Rotate) {
      RotateStep(s, h);
    }
  }

  // ---- Crash consistency ----

  /** The store after the first n commits of a run. */
  ghost predicate StoreIsPrefix<K, V>(store: map<K, V>, run: seq<Action<K, V>>, n: nat)
    requires ValidRun(Initial(store), run)
  {
    n <= |Commits(run)| && Exec(Initial(store), run).store == Apply(store, Fold(Commits(run)[..n]))
  }

  lemma {:induction false} FlattenPrefix<T>(parts: seq<seq<T>>, n: nat)
    requires n <= |parts|
    ensures Flatten(parts[..n]) <= Flatten(parts)
    decreases |parts|
  {
    if n < |parts| {
      var init := parts[..|parts| - 1];
      assert init[..n] == parts[..n];
      FlattenPrefix(init, n);
    } else {
      assert parts[..n] == parts;
    }
  }

  /** How many commits of the run are durable. */
  ghost function Durable<K, V>(store: map<K, V>, run: seq<Action<K, V>>): (n: nat)
    requires ValidRun(Initial(store), run)
    ensures StoreIsPrefix(store, run, n)
    ensures n == StoredCount(Exec(Initial(store), run), RunHistory(store, run))
    ensures Exec(Initial(store), run).mode == Closed ==> n == |Commits(run)|
  {
    var s, h := Exec(Initial(store), run), RunHistory(store, run);
    StoredIsPrefix(s, h);
    StoredCount(s, h)
  }

  ghost function StoredCount<K, V>(s: State<K, V>, h: History<K, V>): nat
    requires h.Valid() && Bounds(s, h)
  {
    |Flatten(h.epochs[..StoredEpoch(s, h) + 1])|
  }

  lemma StoredIsPrefix<K, V>(s: State<K, V>, h: History<K, V>)
    requires Agrees(s, h)
    ensures StoredCount(s, h) <= |h.Log()|
    ensures s.store == Apply(h.base, Fold(h.Log()[..StoredCount(s, h)]))
    ensures s.mode == Closed ==> StoredCount(s, h) == |h.Log()|
  {
    var n := StoredEpoch(s, h) + 1;
    FlattenPrefix(h.epochs, n);
    assert h.Log()[..StoredCount(s, h)] == Flatten(h.epochs[..n]);
    if s.mode == Closed {
      assert h.epochs[..n] == h.epochs;
    }
  }

  /** The epochs already stored are not touched by a step. */
  lemma StoredEpochsKept<K, V>(s: State<K, V>, h: History<K, V>, a: Action<K, V>)
    requires WellFormed(s) && h.Valid() && Bounds(s, h) && Enabled(s, a)
    ensures var h' := Advance(h, a);
            && StoredEpoch(s, h) <= StoredEpoch(Step(s, a), h')
            && h.epochs[..StoredEpoch(s, h) + 1] == h'.epochs[..StoredEpoch(s, h) + 1]
  {
  }

  lemma StoredGrows<K, V>(s: State<K, V>, h: History<K, V>, a: Action<K, V>)
    requires WellFormed(s) && h.Valid() && Bounds(s, h) && Enabled(s, a)
    requires Advance(h, a).Valid() && Bounds(Step(s, a), Advance(h, a))
    ensures StoredCount(s, h) <= StoredCount(Step(s, a), Advance(h, a))
  {
    StoredEpochsKept(s, h, a);
    PrefixCount(Advance(h, a).epochs, StoredEpoch(s, h) + 1, StoredEpoch(Step(s, a), Advance(h, a)) + 1);
  }

  lemma PrefixCount<T>(parts: seq<seq<T>>, n: nat, n': nat)
    requires n <= n' <= |parts|
    ensures |Flatten(parts[..n])| <= |Flatten(parts[..n'])|
  {
    assert parts[..n'][..n] == parts[..n];
    FlattenPrefix(parts[..n'], n);
  }

  /** What is durable stays durable: a step never shortens the prefix held by the store. */
  lemma DurableGrows<K, V>(store: map<K, V>, run: seq<Action<K, V>>)
    requires run != [] && ValidRun(Initial(store), run)
    ensures Durable(store, run[..|run| - 1]) <= Durable(store, run)
  {
    var init, a := run[..|run| - 1], run[|run| - 1];
    var s, h := Exec(Initial(store), init), RunHistory(store, init);
    assert Exec(Initial(store), run) == Step(s, a) && RunHistory(store, run) == Advance(h, a);
    StoredGrows(s, h, a);
  }

  /**
   Recovery: a ring opened on the store left by a crash at any point of a run stands for
   exactly the first `Durable` commits of that run, none of them split.
   */
  lemma CrashRecovers<K, V>(store: map<K, V>, run: seq<Action<K, V>>)
    requires ValidRun(Initial(store), run)
    ensures var crashed := Exec(Initial(store), run).store;
            View(Initial(crashed)) == Apply(store, Fold(Commits(run)[..Durable(store, run)]))
  {
    var crashed := Exec(Initial(store), run).store;
    var nothing: seq<Action<K, V>> := [];
    RunRefines(crashed, nothing);
    ApplyEmpty(crashed);
  }
}
