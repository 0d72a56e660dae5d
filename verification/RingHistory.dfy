/**
 What every step of the ring keeps.  The proof numbers the successive uses of the caches:
 epoch e occupies slot e modulo 6, and its cache holds exactly the batches committed while e
 was the write epoch.  The epochs laid end to end are the log of all committed batches.
 */
module RingHistory {
  import opened Ring

  datatype History<K, V> = History(
    base: map<K, V>,                        // the store the run started from
    epochs: seq<seq<map<K, Entry<V>>>>,     // the batches committed in each epoch
    flushed: nat)                           // last epoch behind readIndex
  {
    ghost predicate Valid() { flushed < |epochs| }

    ghost function Current(): int { |epochs| - 1 }

    /** The entries written during epoch e. */
    ghost function Content(e: nat): map<K, Entry<V>>
      requires e < |epochs|
    {
      Fold(epochs[e])
    }

    /** The flat map after the epochs 0 .. e. */
    ghost function Through(e: nat): map<K, V>
      requires e < |epochs|
    {
      Apply(base, Fold(Flatten(epochs[..e + 1])))
    }

    /** Every committed batch, in commit order. */
    ghost function Log(): seq<map<K, Entry<V>>> { Flatten(epochs) }
  }

  ghost function Flatten<T>(parts: seq<seq<T>>): seq<T> {
    if parts == [] then [] else Flatten(parts[..|parts| - 1]) + parts[|parts| - 1]
  }

  // ---- Slots ----

  /** The ring slot of epoch e: e modulo the number of caches. */
  ghost function Slot(e: nat): (i: nat)
    ensures i < CACHE_COUNT
  {
    if e < CACHE_COUNT then e else Slot(e - CACHE_COUNT)
  }

  lemma {:induction false} SlotShift(e: nat, d: nat)
    requires d <= CACHE_COUNT
    ensures Slot(e + d) == if Slot(e) + d < CACHE_COUNT then Slot(e) + d else Slot(e) + d - CACHE_COUNT
  {
    if e >= CACHE_COUNT {
      SlotShift(e - CACHE_COUNT, d);
    }
  }

  lemma SlotNext(e: nat)
    ensures Slot(e + 1) == Next(Slot(e))
  {
    SlotShift(e, 1);
  }

  lemma SlotDistinct(e: nat, e': nat)
    requires e < e' < e + CACHE_COUNT
    ensures Slot(e) != Slot(e')
  {
    SlotShift(e, e' - e);
  }

  // ---- Agreement of a state with a history ----

  /** Last epoch whose batches have reached the store. */
  ghost function StoredEpoch<K, V>(s: State<K, V>, h: History<K, V>): nat {
    if s.phase == Idle then h.flushed else h.flushed + 1
  }

  /** Last epoch whose cache has been purged. */
  ghost function PurgedEpoch<K, V>(s: State<K, V>, h: History<K, V>): nat {
    if s.phase == Purged then h.flushed + 1 else h.flushed
  }

  ghost predicate Agrees<K, V>(s: State<K, V>, h: History<K, V>) {
    && WellFormed(s)
    && h.Valid()
    && Bounds(s, h)
    && s.writeIndex == Slot(h.Current())
    && s.readIndex == Slot(h.flushed)
    && s.store == h.Through(StoredEpoch(s, h))
    && (forall e: nat :: h.flushed < e <= h.flushed + CACHE_COUNT ==> SlotHolds(s, h, e))
  }

  /** How far the write epoch may run ahead of the flushed one. */
  ghost predicate Bounds<K, V>(s: State<K, V>, h: History<K, V>) {
    && h.Current() < h.flushed + CACHE_COUNT
    && (s.mode == Running ==> h.flushed < h.Current())
    && (s.mode == Running && s.phase != Idle ==> h.flushed + 1 < h.Current())
    && (s.mode == Closing ==> h.flushed < h.Current())
    && (s.mode == Closed ==> h.flushed == h.Current() && s.phase == Idle)
  }

  /** The slot of epoch e holds what e wrote, or nothing if e is purged or not yet begun. */
  ghost predicate SlotHolds<K, V>(s: State<K, V>, h: History<K, V>, e: nat)
    requires WellFormed(s)
  {
    s.caches[Slot(e)] == if PurgedEpoch(s, h) < e < |h.epochs| then h.Content(e) else map[]
  }

  function InitialHistory<K, V>(store: map<K, V>): History<K, V> {
    History(store, [[], []], 0)
  }

  lemma InitialAgrees<K, V>(store: map<K, V>)
    ensures Agrees(Initial(store), InitialHistory(store))
    ensures InitialHistory(store).Log() == []
  {
    var h := InitialHistory(store);
    assert h.epochs[..1] == [[]] && h.epochs[..1][..0] == [];
    assert h.epochs[..|h.epochs| - 1] == [[]] && Flatten<map<K, Entry<V>>>([[]]) == [];
    ApplyEmpty(store);
  }

  // ---- One step ----

  /** Extending a history by one step. */
  ghost function Advance<K, V>(h: History<K, V>, a: Action<K, V>): History<K, V>
    requires h.Valid()
  {
    match a
    case Commit(batch) =>
      var w := h.Current();
      h.(epochs := h.epochs[w := h.epochs[w] + [batch]])
    case Rotate => h.(epochs := h.epochs + [[]])
    case FlushAdvance => h.(flushed := h.flushed + 1)
    case Reset =>
      // skip to the next epoch that lives in slot 1
      var skip := if Slot(h.Current()) == 0 then 0 else CACHE_COUNT - Slot(h.Current());
      h.(epochs := h.epochs + seq(skip + 1, _ => []), flushed := h.Current() + skip)
    case _ => h
  }

  lemma FoldAppend<K, V>(batches: seq<map<K, Entry<V>>>, batch: map<K, Entry<V>>)
    ensures Fold(batches + [batch]) == Fold(batches) + batch
  {
    assert (batches + [batch])[..|batches|] == batches;
  }

  lemma CommitStep<K, V>(s: State<K, V>, h: History<K, V>, batch: map<K, Entry<V>>)
    requires Agrees(s, h) && Enabled(s, Commit(batch))
    ensures Agrees(Step(s, Commit(batch)), Advance(h, Commit(batch)))
  {
    var s', h' := Step(s, Commit(batch)), Advance(h, Commit(batch));
    var w, n := h.Current(), StoredEpoch(s, h);
    assert h'.epochs[..n + 1] == h.epochs[..n + 1];
    FoldAppend(h.epochs[w], batch);
    forall e: nat | h.flushed < e <= h.flushed + CACHE_COUNT
      ensures SlotHolds(s', h', e)
    {
      assert SlotHolds(s, h, e);
      if e < w {
        SlotDistinct(e, w);
      } else if w < e {
        SlotDistinct(w, e);
      }
    }
  }

  lemma RotateBound<K, V>(s: State<K, V>, h: History<K, V>)
    requires Agrees(s, h) && Enabled(s, Rotate)
    ensures h.Current() + 1 < h.flushed + CACHE_COUNT
    ensures Slot(h.Current() + 1) == Next(s.writeIndex)
  {
    SlotNext(h.Current());
    assert Slot(h.flushed + CACHE_COUNT) == s.readIndex;
  }

  lemma TakeAppended<T>(s: seq<T>, e: T, n: nat)
    requires n <= |s|
    ensures (s + [e])[..n] == s[..n]
  {
  }

  lemma RotateStep<K, V>(s: State<K, V>, h: History<K, V>)
    requires Agrees(s, h) && Enabled(s, Rotate)
    ensures Agrees(Step(s, Rotate), Advance(h, Rotate))
    ensures s.caches[Next(s.writeIndex)] == map[]
  {
    var s', h' := Step(s, Rotate), Advance(h, Rotate);
    var next, n := h.Current() + 1, StoredEpoch(s, h);
    TakeAppended(h.epochs, [], n + 1);
    RotateBound(s, h);
    assert SlotHolds(s, h, next);
    forall e: nat | h.flushed < e <= h.flushed + CACHE_COUNT
      ensures SlotHolds(s', h', e)
    {
      RotateSlot(s, h, e);
    }
  }

  lemma RotateSlot<K, V>(s: State<K, V>, h: History<K, V>, e: nat)
    requires Agrees(s, h) && Enabled(s, Rotate) && h.flushed < e <= h.flushed + CACHE_COUNT
    ensures SlotHolds(Step(s, Rotate), Advance(h, Rotate), e)
  {
    RotateBound(s, h);
    assert SlotHolds(s, h, e);
  }

  lemma ThroughNext<K, V>(h: History<K, V>, e: nat)
    requires e + 1 < |h.epochs|
    ensures h.Through(e + 1) == Apply(h.Through(e), h.Content(e + 1))
  {
    var all := h.epochs[..e + 2];
    assert all[..e + 1] == h.epochs[..e + 1];
    FoldConcat(Flatten(h.epochs[..e + 1]), h.epochs[e + 1]);
    ApplyApply(h.base, Fold(Flatten(h.epochs[..e + 1])), h.Content(e + 1));
  }

  lemma FlushStoreStep<K, V>(s: State<K, V>, h: History<K, V>)
    requires Agrees(s, h) && Enabled(s, FlushStore)
    ensures Agrees(Step(s, FlushStore), Advance(h, FlushStore))
  {
    var s' := Step(s, FlushStore);
    SlotNext(h.flushed);
    assert SlotHolds(s, h, h.flushed + 1);
    ThroughNext(h, h.flushed);
    forall e: nat | h.flushed < e <= h.flushed + CACHE_COUNT
      ensures SlotHolds(s', h, e)
    {
      FlushStoreSlot(s, h, e);
    }
  }

  lemma FlushStoreSlot<K, V>(s: State<K, V>, h: History<K, V>, e: nat)
    requires Agrees(s, h) && Enabled(s, FlushStore) && h.flushed < e <= h.flushed + CACHE_COUNT
    ensures SlotHolds(Step(s, FlushStore), h, e)
  {
    assert SlotHolds(s, h, e);
  }

  lemma FlushPurgeStep<K, V>(s: State<K, V>, h: History<K, V>)
    requires Agrees(s, h) && Enabled(s, FlushPurge)
    ensures Agrees(Step(s, FlushPurge), Advance(h, FlushPurge))
  {
    var s' := Step(s, FlushPurge);
    var oldest := h.flushed + 1;
    SlotNext(h.flushed);
    forall e: nat | h.flushed < e <= h.flushed + CACHE_COUNT
      ensures SlotHolds(s', h, e)
    {
      assert SlotHolds(s, h, e);
      if e > oldest {
        SlotDistinct(oldest, e);
      }
    }
  }

  lemma FlushAdvanceStep<K, V>(s: State<K, V>, h: History<K, V>)
    requires Agrees(s, h) && Enabled(s, FlushAdvance)
    ensures Agrees(Step(s, FlushAdvance), Advance(h, FlushAdvance))
  {
    var s', h' := Step(s, FlushAdvance), Advance(h, FlushAdvance);
    SlotNext(h.flushed);
    assert SlotHolds(s, h, h'.flushed);
    if h'.flushed < h.Current() {
      SlotDistinct(h'.flushed, h.Current());
    }
    forall e: nat | h'.flushed < e <= h'.flushed + CACHE_COUNT
      ensures SlotHolds(s', h', e)
    {
      if e == h'.flushed + CACHE_COUNT {
        assert Slot(e) == Slot(h'.flushed);
      } else {
        assert SlotHolds(s, h, e);
      }
    }
  }

  lemma {:induction false} FlattenEmpties<T>(parts: seq<seq<T>>, n: nat)
    ensures Flatten(parts + seq(n, _ => [])) == Flatten(parts)
  {
    var all := parts + seq(n, _ => []);
    if n == 0 {
      assert all == parts;
    } else {
      assert all[..|all| - 1] == parts + seq(n - 1, _ => []);
      FlattenEmpties(parts, n - 1);
    }
  }

  lemma ClosedIsEmpty<K, V>(s: State<K, V>, h: History<K, V>, i: nat)
    requires Agrees(s, h) && s.mode == Closed && i < CACHE_COUNT
    ensures s.caches[i] == map[]
  {
    var d := Distance(s.readIndex, i);
    var e := h.flushed + if d == 0 then CACHE_COUNT else d;
    SlotShift(h.flushed, e - h.flushed);
    assert SlotHolds(s, h, e);
  }

  /** Empty epochs leave the flat map alone. */
  lemma ResetThrough<K, V>(h: History<K, V>, skip: nat)
    requires |h.epochs| > 0
    ensures h.(epochs := h.epochs + seq(skip + 1, _ => [])).Through(h.Current() + skip) == h.Through(h.Current())
  {
    var h' := h.(epochs := h.epochs + seq(skip + 1, _ => []));
    assert h'.epochs[..h.Current() + skip + 1] == h.epochs + seq(skip, _ => []);
    FlattenEmpties(h.epochs, skip);
    assert h.epochs[..h.Current() + 1] == h.epochs;
  }

  lemma ResetStep<K, V>(s: State<K, V>, h: History<K, V>)
    requires Agrees(s, h) && Enabled(s, Reset)
    ensures Agrees(Step(s, Reset), Advance(h, Reset))
  {
    var s', h' := Step(s, Reset), Advance(h, Reset);
    var skip := h'.flushed - h.flushed;
    SlotShift(h.flushed, skip);
    SlotNext(h'.flushed);
    ResetThrough(h, skip);
    forall e: nat | h'.flushed < e <= h'.flushed + CACHE_COUNT
      ensures SlotHolds(s', h', e)
    {
      ResetSlot(s, h, e);
    }
  }

  lemma ResetSlot<K, V>(s: State<K, V>, h: History<K, V>, e: nat)
    requires Agrees(s, h) && Enabled(s, Reset) && Advance(h, Reset).flushed < e
    ensures SlotHolds(Step(s, Reset), Advance(h, Reset), e)
  {
    ClosedIsEmpty(s, h, Slot(e));
  }

  /** Every step takes an agreeing pair to an agreeing pair. */
  lemma StepAgrees<K, V>(s: State<K, V>, h: History<K, V>, a: Action<K, V>)
    requires Agrees(s, h) && Enabled(s, a)
    ensures Agrees(Step(s, a), Advance(h, a))
  {
    match a
    case Commit(batch) => CommitStep(s, h, batch);
    case Rotate => RotateStep(s, h);
    case FlushStore => FlushStoreStep(s, h);
    case FlushPurge => FlushPurgeStep(s, h);
    case FlushAdvance => FlushAdvanceStep(s, h);
    case BeginClose =>
      forall e: nat | h.flushed < e <= h.flushed + CACHE_COUNT ensures SlotHolds(Step(s, a), h, e) {
        assert SlotHolds(s, h, e);
      }
    case Reset => ResetStep(s, h);
  }

  /** The log grows by exactly the committed batch. */
  lemma AdvanceLog<K, V>(h: History<K, V>, a: Action<K, V>)
    requires h.Valid()
    ensures Advance(h, a).Log() == h.Log() + if a.Commit? then [a.batch] else []
  {
    var h' := Advance(h, a);
    var w := h.Current();
    match a
    case Commit(batch) =>
      assert h'.epochs[..w] == h.epochs[..w];
    case Rotate =>
      assert h'.epochs[..w + 1] == h.epochs;
    case Reset =>
      FlattenEmpties(h.epochs, |h'.epochs| - |h.epochs|);
    case _ =>
  }
}
