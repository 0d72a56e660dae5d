/**
 The ring as the program runs it: cache objects updated in place, an index pair, and loops
 over ring indices.  Every method is proved against the state machine of module Ring and
 keeps a history, so the flat map it stands for changes exactly as stated.
 */
module MemoryCache {
  import opened Ring
  import opened RingHistory
  import opened RingTheorems

  /** The persistent store; PutBatch is atomic. */
  class Store<K(==), V> {
    var table: map<K, V>

    constructor (table: map<K, V>)
      ensures this.table == table
    {
      this.table := table;
    }

    method PutBatch(batch: map<K, Entry<V>>)
      modifies this
      ensures table == Apply(old(table), batch)
    {
      table := Apply(table, batch);
    }
  }

  class Cache<K(==), V> {
    var entries: map<K, Entry<V>>
    var quote: int

    constructor ()
      ensures entries == map[] && quote == 0
    {
      entries, quote := map[], 0;
    }

    method Put(k: K, e: Entry<V>)
      modifies this`entries
      ensures entries == old(entries)[k := e]
    {
      entries := entries[k := e];
    }

    method Get(k: K) returns (p: Probe<V>)
      ensures p == ProbeOne(entries, k)
    {
      if k !in entries {
        p := Miss;
      } else {
        p := if entries[k].Deleted? then Tombstone else Hit(entries[k].value);
      }
    }

    /** Copies every entry, in whatever order the map yields them, into one batch. */
    method Dump() returns (batch: map<K, Entry<V>>)
      ensures batch == entries
    {
      var keys := entries.Keys;
      batch := map[];
      while keys != {}
        invariant keys <= entries.Keys && batch.Keys == entries.Keys - keys
        invariant forall k :: k in batch ==> batch[k] == entries[k]
        decreases keys
      {
        var k :| k in keys;
        batch, keys := batch[k := entries[k]], keys - {k};
      }
    }

    /** Dumps every entry into one batch, stores the batch, then clears the cache. */
    method Flush(store: Store<K, V>)
      requires quote == 0  // flush waits for the last writer to release the cache
      modifies this`entries, store
      ensures store.table == Apply(old(store.table), old(entries))
      ensures entries == map[]
    {
      if |entries| == 0 {
        assert entries.Keys == {};
        ApplyEmpty(store.table);
        return;
      }
      var batch := Dump();
      store.PutBatch(batch);
      entries := map[];
    }
  }

  // ---- What the ring's methods compute, as functions of the state ----

  /** One cache flushed and readIndex moved onto it. */
  ghost function FlushOne<K, V>(s: State<K, V>): State<K, V>
    requires WellFormed(s)
  {
    var oldest := Next(s.readIndex);
    s.(caches := s.caches[oldest := map[]], store := Apply(s.store, s.caches[oldest]), readIndex := oldest)
  }

  /** The flusher's loop: every cache before the write cache. */
  ghost function FlushAll<K, V>(s: State<K, V>): (s': State<K, V>)
    requires WellFormed(s) && s.readIndex != s.writeIndex
    ensures WellFormed(s') && Next(s'.readIndex) == s'.writeIndex == s.writeIndex
    ensures s'.phase == s.phase && s'.mode == s.mode
    decreases Distance(s.readIndex, s.writeIndex)
  {
    if Next(s.readIndex) == s.writeIndex then s else FlushAll(FlushOne(s))
  }

  /** close: the write cache too. */
  ghost function CloseAll<K, V>(s: State<K, V>): State<K, V>
    requires WellFormed(s) && s.readIndex != s.writeIndex
  {
    FlushOne(FlushAll(s))
  }

  /** GetCache: when the interval has passed and there is something to flush, move on. */
  ghost function Turn<K, V>(s: State<K, V>, due: bool): (s': State<K, V>)
    requires WellFormed(s) && s.readIndex != s.writeIndex
    ensures WellFormed(s')
  {
    if due && |s.caches[s.writeIndex]| > 0 then Rotated(s) else s
  }

  /** Rotation, after the flusher has freed the next cache if it was not yet flushed. */
  ghost function Rotated<K, V>(s: State<K, V>): (s': State<K, V>)
    requires WellFormed(s) && s.readIndex != s.writeIndex
    ensures WellFormed(s')
  {
    var ready := if Next(s.writeIndex) == s.readIndex then FlushAll(s) else s;
    ready.(writeIndex := Next(ready.writeIndex))
  }

  ghost function PutOne<K, V>(s: State<K, V>, k: K, e: Entry<V>): State<K, V>
    requires WellFormed(s)
  {
    s.(caches := s.caches[s.writeIndex := s.caches[s.writeIndex][k := e]])
  }

  /** The ring of caches; the mutable object of ledger/cache.go. */
  class MemoryCache<K(==), V> {
    var caches: seq<Cache<K, V>>
    var writeIndex: nat
    var readIndex: nat
    var store: Store<K, V>
    var flushing: bool

    ghost predicate Shape()
      reads this`caches, this`writeIndex, this`readIndex, caches
    {
      && |caches| == CACHE_COUNT && writeIndex < CACHE_COUNT && readIndex < CACHE_COUNT
      && (forall i, j :: 0 <= i < j < CACHE_COUNT ==> caches[i] != caches[j])
      && (forall i :: 0 <= i < CACHE_COUNT ==> caches[i].quote == 0)
    }

    /** The state the object is in, between flush phases and while the ledger runs. */
    ghost function Abs(): (s: State<K, V>)
      requires |caches| == CACHE_COUNT
      reads this`caches, this`writeIndex, this`readIndex, this`store, caches, store
    {
      var cs := caches;
      State(seq(CACHE_COUNT, i requires 0 <= i < |cs| reads cs => cs[i].entries),
            writeIndex, readIndex, store.table, Idle, Running)
    }

    constructor (store: Store<K, V>)
      ensures Shape() && this.store == store && !flushing
      ensures Abs() == Initial(store.table)
      ensures fresh(this) && forall c :: c in caches ==> fresh(c)
    {
      var cs: seq<Cache<K, V>> := [];
      while |cs| < CACHE_COUNT
        invariant |cs| <= CACHE_COUNT
        invariant forall i, j :: 0 <= i < j < |cs| ==> cs[i] != cs[j]
        invariant forall c :: c in cs ==> fresh(c) && c.quote == 0 && c.entries == map[]
      {
        var c := new Cache<K, V>();
        cs := cs + [c];
      }
      caches := cs;
      writeIndex, readIndex := 1, 0;
      this.store := store;
      flushing := false;
    }

    /** Flushes cache `index` and moves readIndex onto it. */
    method FlushSlot(index: nat)
      requires Shape() && index == Next(readIndex)
      modifies this`readIndex, caches, store
      ensures Shape() && Abs() == FlushOne(old(Abs()))
    {
      caches[index].Flush(store);
      readIndex := index;
    }

    /** The flusher: moves every cache but the one taking writes to the store. */
    method Flush()
      requires Shape() && readIndex != writeIndex
      modifies this`readIndex, this`flushing, caches, store
      ensures Shape() && flushing == old(flushing)
      ensures Abs() == if old(flushing) then old(Abs()) else FlushAll(old(Abs()))
    {
      if flushing {
        return;
      }
      flushing := true;
      FlushCaches();
      flushing := false;
    }

    /** The loop of the flusher. */
    method FlushCaches()
      requires Shape() && readIndex != writeIndex
      modifies this`readIndex, caches, store
      ensures Shape() && Abs() == FlushAll(old(Abs()))
    {
      ghost var s := Abs();
      var index := (readIndex + 1) % CACHE_COUNT;
      while index != writeIndex
        invariant Shape() && Abs() == s && s.readIndex != s.writeIndex && index == Next(readIndex)
        invariant FlushAll(s) == FlushAll(old(Abs()))
        decreases Distance(readIndex, writeIndex)
      {
        FlushSlot(index);
        s := FlushOne(s);
        index := (index + 1) % CACHE_COUNT;
      }
    }

    /** Moves every cache, the one taking writes included, to the store. */
    method Close()
      requires Shape() && readIndex != writeIndex
      modifies this`readIndex, caches, store
      ensures Shape() && Abs() == CloseAll(old(Abs()))
    {
      var index, finish := (readIndex + 1) % CACHE_COUNT, false;
      while !finish
        invariant Shape() && index == Next(readIndex)
        invariant finish ==> Abs() == CloseAll(old(Abs()))
        invariant !finish ==> readIndex != writeIndex && CloseAll(Abs()) == CloseAll(old(Abs()))
        decreases if finish then 0 else Distance(readIndex, writeIndex)
      {
        if index == writeIndex {
          finish := true;
        }
        FlushSlot(index);
        index := (index + 1) % CACHE_COUNT;
      }
    }

    /** Close, then start the ring over. */
    method Rebuild()
      requires Shape() && readIndex != writeIndex
      modifies this`readIndex, this`writeIndex, caches, store
      ensures Shape() && Abs() == CloseAll(old(Abs())).(writeIndex := 1, readIndex := 0)
    {
      Close();
      writeIndex, readIndex := 1, 0;
    }

    /**
     The cache that takes writes.  `due` is the clock: whether the flush interval has passed.
     While the next cache is still unflushed the program sleeps; the flusher's run is what ends the wait.
     */
    method GetCache(due: bool) returns (c: Cache<K, V>)
      requires Shape() && readIndex != writeIndex && !flushing
      modifies this`readIndex, this`writeIndex, this`flushing, caches, store
      ensures Shape() && !flushing
      ensures Abs() == Turn(old(Abs()), due) && c == caches[writeIndex] && caches == old(caches)
      ensures var moves := due && old(caches[writeIndex].entries) != map[];
              && writeIndex == (if moves then Next(old(writeIndex)) else old(writeIndex))
              && (moves && Next(old(writeIndex)) == old(readIndex) ==> Next(readIndex) == old(writeIndex))
              && (!(moves && Next(old(writeIndex)) == old(readIndex)) ==> readIndex == old(readIndex))
    {
      assert Abs().caches[writeIndex] == caches[writeIndex].entries;
      TurnMoves(Abs(), due);
      if due && |caches[writeIndex].entries| > 0 {
        MoveOn();
      }
      c := caches[writeIndex];
    }

    /** The rotation inside GetCache. */
    method MoveOn()
      requires Shape() && readIndex != writeIndex && !flushing
      modifies this`readIndex, this`writeIndex, this`flushing, caches, store
      ensures Shape() && !flushing
      ensures Abs() == Rotated(old(Abs()))
    {
      ghost var ready := Abs();
      var newWriteIndex := (writeIndex + 1) % CACHE_COUNT;
      if newWriteIndex == readIndex {
        Flush();
        ready := FlushAll(ready);
      }
      assert Abs() == ready;
      writeIndex := newWriteIndex;
      assert Abs() == ready.(writeIndex := newWriteIndex);
    }

    /** One write into the cache GetCache returned. */
    method Put(k: K, e: Entry<V>)
      requires Shape()
      modifies caches
      ensures Shape() && Abs() == PutOne(old(Abs()), k, e)
    {
      caches[writeIndex].Put(k, e);
    }

    /** The backward scan; `count` never reaches the value that logs a loop. */
    method Get(k: K) returns (p: Probe<V>)
      requires Shape()
      ensures p == ProbeOne(Window(Abs(), writeIndex), k)
    {
      var index, count := writeIndex, 0;
      while index != readIndex
        invariant 0 <= index < CACHE_COUNT
        invariant count + Distance(readIndex, index) == Distance(readIndex, writeIndex)
        invariant Scan(Abs(), index, k) == Scan(Abs(), writeIndex, k)
        decreases Distance(readIndex, index)
      {
        count := count + 1;
        assert count < CACHE_COUNT;
        assert Abs().caches[index] == caches[index].entries;
        p := caches[index].Get(k);
        if !p.Miss? {
          ScanFindsNewest(Abs(), writeIndex, k);
          return;
        }
        index := if index == 0 then CACHE_COUNT - 1 else index - 1;
      }
      ScanFindsNewest(Abs(), writeIndex, k);
      p := Miss;
    }
  }

  // ---- The methods as steps of the state machine ----

  lemma FlushOneSteps<K, V>(s: State<K, V>, h: History<K, V>)
    requires Agrees(s, h) && Enabled(s, FlushStore) && s.mode == Running
    ensures Agrees(FlushOne(s), Advance(h, FlushAdvance))
  {
    StepAgrees(s, h, FlushStore);
    StepAgrees(Step(s, FlushStore), h, FlushPurge);
    StepAgrees(Step(Step(s, FlushStore), FlushPurge), h, FlushAdvance);
  }

  /** The flusher keeps the commits and only moves the flushed epoch. */
  lemma {:induction false} FlushAllAgrees<K, V>(s: State<K, V>, h: History<K, V>) returns (h': History<K, V>)
    requires Agrees(s, h) && s.phase == Idle && s.mode == Running && s.readIndex != s.writeIndex
    ensures Agrees(FlushAll(s), h') && h'.base == h.base && h'.epochs == h.epochs
    ensures View(FlushAll(s)) == View(s)
    decreases Distance(s.readIndex, s.writeIndex)
  {
    if Next(s.readIndex) == s.writeIndex {
      h' := h;
    } else {
      FlushOneSteps(s, h);
      h' := FlushAllAgrees(FlushOne(s), Advance(h, FlushAdvance));
      SameView(s, h, FlushOne(s), Advance(h, FlushAdvance));
    }
  }

  /** Two states whose histories hold the same commits stand for the same flat map. */
  lemma SameView<K, V>(s: State<K, V>, h: History<K, V>, s': State<K, V>, h': History<K, V>)
    requires Agrees(s, h) && Agrees(s', h') && h.base == h'.base && h.Log() == h'.Log()
    ensures View(s) == View(s')
  {
    ViewIsLog(s, h);
    ViewIsLog(s', h');
  }

  lemma RotatedAgrees<K, V>(s: State<K, V>, h: History<K, V>) returns (h': History<K, V>)
    requires Agrees(s, h) && s.phase == Idle && s.mode == Running && s.readIndex != s.writeIndex
    ensures Agrees(Rotated(s), h') && h'.base == h.base && h'.Log() == h.Log()
  {
    var h1, ready := h, s;
    if Next(s.writeIndex) == s.readIndex {
      h1 := FlushAllAgrees(s, h);
      ready := FlushAll(s);
    }
    StepAgrees(ready, h1, Rotate);
    AdvanceLog(h1, Rotate);
    h' := Advance(h1, Rotate);
  }

  /** GetCache changes neither the commits nor the flat map. */
  lemma TurnAgrees<K, V>(s: State<K, V>, h: History<K, V>, due: bool) returns (h': History<K, V>)
    requires Agrees(s, h) && s.phase == Idle && s.mode == Running
    ensures s.readIndex != s.writeIndex
    ensures Agrees(Turn(s, due), h') && h'.base == h.base && h'.Log() == h.Log()
    ensures View(Turn(s, due)) == View(s)
  {
    AgreesGivesInvariant(s, h);
    h' := h;
    if due && |s.caches[s.writeIndex]| > 0 {
      h' := RotatedAgrees(s, h);
    }
    SameView(s, h, Turn(s, due), h');
  }

  /**
   GetCache leaves the write cache exactly when the interval has passed and the cache is in use.  If the next
   cache is still unflushed, everything before the old write cache is stored first; otherwise nothing moves
   but the index.
   */
  lemma TurnMoves<K, V>(s: State<K, V>, due: bool)
    requires WellFormed(s) && s.readIndex != s.writeIndex
    ensures var s', moves, full := Turn(s, due), due && s.caches[s.writeIndex] != map[], Next(s.writeIndex) == s.readIndex;
            && s'.writeIndex == (if moves then Next(s.writeIndex) else s.writeIndex)
            && s'.caches[s.writeIndex] == s.caches[s.writeIndex]
            && (moves && full ==> Next(s'.readIndex) == s.writeIndex)
            && (!(moves && full) ==> s' == s.(writeIndex := s'.writeIndex))
  {
    var m := s.caches[s.writeIndex];
    if m != map[] {
      var k :| k in m;
      assert |m| > 0;
    }
    if Next(s.writeIndex) == s.readIndex {
      FlushAllKeepsLast(s);
    }
  }

  lemma {:induction false} FlushAllKeepsLast<K, V>(s: State<K, V>)
    requires WellFormed(s) && s.readIndex != s.writeIndex
    ensures FlushAll(s).caches[s.writeIndex] == s.caches[s.writeIndex]
    decreases Distance(s.readIndex, s.writeIndex)
  {
    if Next(s.readIndex) != s.writeIndex {
      FlushAllKeepsLast(FlushOne(s));
    }
  }

  /** The cache GetCache moves on to is empty, so the next write is the first thing in it. */
  lemma TurnEntersEmpty<K, V>(s: State<K, V>, h: History<K, V>, due: bool)
    requires Agrees(s, h) && s.phase == Idle && s.mode == Running && s.readIndex != s.writeIndex
    ensures var s' := Turn(s, due); s'.writeIndex != s.writeIndex ==> s'.caches[s'.writeIndex] == map[]
  {
    if Turn(s, due).writeIndex != s.writeIndex {
      var h1, ready := h, s;
      if Next(s.writeIndex) == s.readIndex {
        h1 := FlushAllAgrees(s, h);
        ready := FlushAll(s);
      }
      RotateStep(ready, h1);
    }
  }

  /** Closing keeps the commits and the flat map, and leaves all of it in the store. */
  lemma CloseAllAgrees<K, V>(s: State<K, V>, h: History<K, V>) returns (h': History<K, V>)
    requires Agrees(s, h) && s.phase == Idle && s.mode == Running && s.readIndex != s.writeIndex
    ensures Agrees(CloseAll(s).(mode := Closed), h') && h'.base == h.base && h'.Log() == h.Log()
    ensures CloseAll(s).store == View(CloseAll(s).(mode := Closed)) == View(s)
  {
    var h1 := FlushAllAgrees(s, h);
    var s1 := FlushAll(s);
    StepAgrees(s1, h1, BeginClose);
    var s2 := Step(s1, BeginClose);
    StepAgrees(s2, h1, FlushStore);
    StepAgrees(Step(s2, FlushStore), h1, FlushPurge);
    StepAgrees(Step(Step(s2, FlushStore), FlushPurge), h1, FlushAdvance);
    h' := Advance(h1, FlushAdvance);
    SameView(s, h, CloseAll(s).(mode := Closed), h');
    AgreesGivesInvariant(CloseAll(s).(mode := Closed), h');
  }

  /** Rebuilding keeps the flat map and leaves all of it in the store. */
  lemma RebuildAgrees<K, V>(s: State<K, V>, h: History<K, V>) returns (h': History<K, V>)
    requires Agrees(s, h) && s.phase == Idle && s.mode == Running && s.readIndex != s.writeIndex
    ensures Agrees(CloseAll(s).(writeIndex := 1, readIndex := 0), h') && h'.base == h.base && h'.Log() == h.Log()
    ensures CloseAll(s).store == View(s)
  {
    var closed := CloseAll(s).(mode := Closed);
    var h1 := CloseAllAgrees(s, h);
    StepAgrees(closed, h1, Reset);
    AdvanceLog(h1, Reset);
    h' := Advance(h1, Reset);
  }

  lemma PutOneAgrees<K, V>(s: State<K, V>, h: History<K, V>, k: K, e: Entry<V>) returns (h': History<K, V>)
    requires Agrees(s, h) && s.mode == Running
    ensures Agrees(PutOne(s, k, e), h') && h'.base == h.base && h'.Log() == h.Log() + [map[k := e]]
    ensures View(PutOne(s, k, e)) == if e.Live? then View(s)[k := e.value] else View(s) - {k}
  {
    var batch := map[k := e];
    assert s.caches[s.writeIndex][k := e] == s.caches[s.writeIndex] + batch;
    StepAgrees(s, h, Commit(batch));
    StepRefines(s, h, Commit(batch));
    AdvanceLog(h, Commit(batch));
    ApplyOne(View(s), k, e);
    h' := Advance(h, Commit(batch));
  }
}
