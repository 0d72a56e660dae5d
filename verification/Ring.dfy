/**
 The ledger's write-back storage layer: a ring of six in-memory caches in front of a
 persistent store.  Writes go to the cache at `writeIndex`; `readIndex` names the last
 cache that was flushed; the live window is the cyclic interval (readIndex, writeIndex].
 This module is the state machine: the state, the tiered read, the flat map that the
 state stands for, and the atomic steps.
 */
module Ring {

  datatype Option<+T> = None | Some(value: T)

  /** What a cache holds for a key: a value, or the tombstone left by Delete. */
  datatype Entry<+V> = Live(value: V) | Deleted

  const CACHE_COUNT := 6

  /** Progress of the flusher on the cache after `readIndex`. */
  datatype Phase = Idle | Stored | Purged

  /** `Closing` while close() holds the lock; `Closed` between close() and rebuild's reset. */
  datatype Mode = Running | Closing | Closed

  datatype State<K, V> = State(
    caches: seq<map<K, Entry<V>>>,
    writeIndex: nat,
    readIndex: nat,
    store: map<K, V>,
    phase: Phase,
    mode: Mode)

  ghost predicate WellFormed<K, V>(s: State<K, V>) {
    |s.caches| == CACHE_COUNT && s.writeIndex < CACHE_COUNT && s.readIndex < CACHE_COUNT
  }

  /** (i + 1) % CACHE_COUNT, for a ring index. */
  function Next(i: nat): nat
    requires i < CACHE_COUNT
  {
    if i + 1 == CACHE_COUNT then 0 else i + 1
  }

  /** One step of the backward scan; Go's `%` truncates, hence the separate test for -1. */
  function Prev(i: nat): nat
    requires i < CACHE_COUNT
  {
    if i == 0 then CACHE_COUNT - 1 else i - 1
  }

  /** Number of caches in the cyclic interval (r, i]. */
  function Distance(r: nat, i: nat): nat
    requires r < CACHE_COUNT && i < CACHE_COUNT
  {
    if r <= i then i - r else i + CACHE_COUNT - r
  }

  // ---- Overlaying batches of entries on a table ----

  function Apply<K, V>(table: map<K, V>, m: map<K, Entry<V>>): map<K, V> {
    map k | k in table.Keys + m.Keys && (k in m ==> m[k].Live?) :: if k in m then m[k].value else table[k]
  }

  function Lookup<K, V>(table: map<K, V>, k: K): Option<V> {
    if k in table then Some(table[k]) else None
  }

  /** Value of `k` in a table overlaid by `m`, without building the table. */
  function Resolve<K, V>(m: map<K, Entry<V>>, table: map<K, V>, k: K): Option<V> {
    if k in m then (if m[k].Live? then Some(m[k].value) else None) else Lookup(table, k)
  }

  lemma ApplyLookup<K, V>(table: map<K, V>, m: map<K, Entry<V>>, k: K)
    ensures Lookup(Apply(table, m), k) == Resolve(m, table, k)
  {
  }

  lemma ApplyApply<K, V>(table: map<K, V>, m: map<K, Entry<V>>, m': map<K, Entry<V>>)
    ensures Apply(Apply(table, m), m') == Apply(table, m + m')
  {
    assert Apply(Apply(table, m), m').Keys == Apply(table, m + m').Keys;
  }

  lemma ApplyPut<K, V>(table: map<K, V>, m: map<K, Entry<V>>, k: K, e: Entry<V>)
    ensures Apply(table, m[k := e]) == if e.Live? then Apply(table, m)[k := e.value] else Apply(table, m) - {k}
  {
    assert Apply(table, m[k := e]).Keys == if e.Live? then Apply(table, m).Keys + {k} else Apply(table, m).Keys - {k};
  }

  lemma ApplyOne<K, V>(table: map<K, V>, k: K, e: Entry<V>)
    ensures Apply(table, map[k := e]) == if e.Live? then table[k := e.value] else table - {k}
  {
    assert Apply(table, map[k := e]).Keys == if e.Live? then table.Keys + {k} else table.Keys - {k};
  }

  lemma ApplyEmpty<K, V>(table: map<K, V>)
    ensures Apply(table, map[]) == table
  {
    assert Apply(table, map[]).Keys == table.Keys;
  }

  // ---- The flat map a state stands for ----

  /** The caches of (readIndex, i], newest winning. */
  function Window<K, V>(s: State<K, V>, i: nat): map<K, Entry<V>>
    requires WellFormed(s) && i < CACHE_COUNT
    decreases Distance(s.readIndex, i)
  {
    if i == s.readIndex then map[] else Window(s, Prev(i)) + s.caches[i]
  }

  function View<K, V>(s: State<K, V>): map<K, V>
    requires WellFormed(s)
  {
    Apply(s.store, Window(s, s.writeIndex))
  }

  // ---- The tiered read ----

  /** Outcome of probing the caches: a value, a tombstone, or nothing. */
  datatype Probe<+V> = Hit(value: V) | Tombstone | Miss

  function ProbeOne<K, V>(m: map<K, Entry<V>>, k: K): Probe<V> {
    if k !in m then Miss else if m[k].Live? then Hit(m[k].value) else Tombstone
  }

  /** The backward scan from cache `i` down to, not including, `readIndex`. */
  function Scan<K, V>(s: State<K, V>, i: nat, k: K): Probe<V>
    requires WellFormed(s) && i < CACHE_COUNT
    decreases Distance(s.readIndex, i)
  {
    if i == s.readIndex then Miss
    else if k in s.caches[i] then ProbeOne(s.caches[i], k)
    else Scan(s, Prev(i), k)
  }

  /** The read a caller sees: batch first, then the ring, then the store. */
  function Read<K, V>(s: State<K, V>, batch: map<K, Entry<V>>, k: K): Option<V>
    requires WellFormed(s)
  {
    match ProbeOne(batch, k)
    case Hit(v) => Some(v)
    case Tombstone => None
    case Miss =>
      match Scan(s, s.writeIndex, k)
      case Hit(v) => Some(v)
      case Tombstone => None
      case Miss => Lookup(s.store, k)
  }

  lemma {:induction false} ScanFindsNewest<K, V>(s: State<K, V>, i: nat, k: K)
    requires WellFormed(s) && i < CACHE_COUNT
    ensures Scan(s, i, k) == ProbeOne(Window(s, i), k)
    decreases Distance(s.readIndex, i)
  {
    if i != s.readIndex {
      ScanFindsNewest(s, Prev(i), k);
    }
  }

  /** A tiered read returns exactly the entry of the flat map overlaid by the caller's batch. */
  lemma ReadIsView<K, V>(s: State<K, V>, batch: map<K, Entry<V>>, k: K)
    requires WellFormed(s)
    ensures Read(s, batch, k) == Lookup(Apply(View(s), batch), k)
  {
    ScanFindsNewest(s, s.writeIndex, k);
    ApplyLookup(View(s), batch, k);
    ApplyLookup(s.store, Window(s, s.writeIndex), k);
  }

  // ---- Steps ----

  datatype Action<K, V> =
    | Commit(batch: map<K, Entry<V>>)  // Put, Delete, or the copy that ends BatchUpdate
    | Rotate                           // GetCache moves on to the next cache
    | FlushStore                       // the flusher's PutBatch of the oldest cache
    | FlushPurge
    | FlushAdvance
    | BeginClose
    | Reset                            // rebuild sets the indices back

  predicate Enabled<K, V>(s: State<K, V>, a: Action<K, V>)
    requires WellFormed(s)
  {
    match a
    case Commit(_) => s.mode == Running
    case Rotate => s.mode == Running && Next(s.writeIndex) != s.readIndex
    case FlushStore =>
      s.phase == Idle &&
      ((s.mode == Running && Next(s.readIndex) != s.writeIndex) || s.mode == Closing)
    case FlushPurge => s.phase == Stored
    case FlushAdvance => s.phase == Purged
    case BeginClose => s.mode == Running && s.phase == Idle
    case Reset => s.mode == Closed
  }

  function Step<K, V>(s: State<K, V>, a: Action<K, V>): State<K, V>
    requires WellFormed(s) && Enabled(s, a)
  {
    var oldest := Next(s.readIndex);
    match a
    case Commit(batch) => s.(caches := s.caches[s.writeIndex := s.caches[s.writeIndex] + batch])
    case Rotate => s.(writeIndex := Next(s.writeIndex))
    case FlushStore => s.(store := Apply(s.store, s.caches[oldest]), phase := Stored)
    case FlushPurge => s.(caches := s.caches[oldest := map[]], phase := Purged)
    case FlushAdvance =>
      s.(readIndex := oldest, phase := Idle,
         mode := if s.mode == Closing && oldest == s.writeIndex then Closed else s.mode)
    case BeginClose => s.(mode := Closing)
    case Reset => s.(writeIndex := 1, readIndex := 0, mode := Running)
  }

  /** A new ring over a store with existing contents. */
  function Initial<K, V>(store: map<K, V>): State<K, V> {
    State(seq(CACHE_COUNT, _ => map[]), 1, 0, store, Idle, Running)
  }

  // ---- Runs ----

  ghost predicate ValidRun<K, V>(s: State<K, V>, run: seq<Action<K, V>>)
    requires WellFormed(s)
    decreases |run|, 0
  {
    run == [] || (ValidRun(s, run[..|run| - 1]) && Enabled(Exec(s, run[..|run| - 1]), run[|run| - 1]))
  }

  ghost function Exec<K, V>(s: State<K, V>, run: seq<Action<K, V>>): (s': State<K, V>)
    requires WellFormed(s) && ValidRun(s, run)
    ensures WellFormed(s')
    decreases |run|, 1
  {
    if run == [] then s else Step(Exec(s, run[..|run| - 1]), run[|run| - 1])
  }

  /** The batches committed by a run, in order. */
  ghost function Commits<K, V>(run: seq<Action<K, V>>): seq<map<K, Entry<V>>> {
    if run == [] then []
    else
      var last := run[|run| - 1];
      Commits(run[..|run| - 1]) + if last.Commit? then [last.batch] else []
  }

  /** Overlay of a sequence of batches, later ones winning. */
  function Fold<K, V>(batches: seq<map<K, Entry<V>>>): map<K, Entry<V>> {
    if batches == [] then map[] else Fold(batches[..|batches| - 1]) + batches[|batches| - 1]
  }

  lemma {:induction false} FoldConcat<K, V>(a: seq<map<K, Entry<V>>>, b: seq<map<K, Entry<V>>>)
    ensures Fold(a + b) == Fold(a) + Fold(b)
    decreases |b|
  {
    if b == [] {
      assert a + b == a;
    } else {
      var n := |b| - 1;
      assert (a + b)[..|a + b| - 1] == a + b[..n];
      FoldConcat(a, b[..n]);
    }
  }
}
