/**
 IteratorObject running concurrently with writers, rotation, the flusher, close and rebuild.  The iteration
 takes the two index reads, the copy of each cache and the iteration of the store, which is a transaction,
 as separate steps.  Seen from one key it is a read of that key, so what ConcurrentGet proves of reads carries
 over to every callback.
 */
module ConcurrentIteration {
  import opened Ring
  import opened RingTheorems
  import opened MergedIteration
  import G = ConcurrentGet

  datatype Walk<K, V> =
    | Started
    | HaveIndex(w: nat)
    | Walking(index: nat, readIndex: nat, layers: seq<map<K, Entry<V>>>)  // layers: the caches copied so far
    | ToStore(layers: seq<map<K, Entry<V>>>)
    | Finished(layers: seq<map<K, Entry<V>>>, table: map<K, V>)

  /** The walk copies fewer caches than there are. */
  ghost predicate WalkOk<K, V>(it: Walk<K, V>) {
    match it
    case Started => true
    case HaveIndex(w) => w < CACHE_COUNT
    case Walking(i, r, layers) => i < CACHE_COUNT && r < CACHE_COUNT && |layers| + Distance(r, i) < CACHE_COUNT
    case ToStore(layers) => |layers| < CACHE_COUNT
    case Finished(layers, _) => |layers| < CACHE_COUNT
  }

  function WalkStep<K, V>(s: State<K, V>, it: Walk<K, V>): (it': Walk<K, V>)
    requires WellFormed(s) && WalkOk(it)
    ensures WalkOk(it')
  {
    match it
    case Started => HaveIndex(s.writeIndex)
    case HaveIndex(w) => Walking(w, s.readIndex, [])
    case Walking(i, r, layers) => if i == r then ToStore(layers) else Walking(Prev(i), r, layers + [s.caches[i]])
    case ToStore(layers) => Finished(layers, s.store)
    case Finished(_, _) => it
  }

  // ---- Interleavings ----

  datatype System<K, V> = System(ring: State<K, V>, walk: Walk<K, V>)

  ghost predicate ValidMoves<K, V>(s: State<K, V>, moves: seq<G.Move<K, V>>)
    requires WellFormed(s)
    decreases |moves|, 0
  {
    moves == [] ||
    var init, last := moves[..|moves| - 1], moves[|moves| - 1];
    ValidMoves(s, init) && (last.Ring? ==> Enabled(Interleave(s, init).ring, last.action))
  }

  /** The system after IteratorObject is called in state s and the moves follow; `Read` is a step of the walk. */
  ghost function Interleave<K, V>(s: State<K, V>, moves: seq<G.Move<K, V>>): (r: System<K, V>)
    requires WellFormed(s) && ValidMoves(s, moves)
    ensures WellFormed(r.ring) && WalkOk(r.walk)
    decreases |moves|, 1
  {
    if moves == [] then System(s, Started)
    else
      var sys, last := Interleave(s, moves[..|moves| - 1]), moves[|moves| - 1];
      match last
      case Ring(a) => sys.(ring := Step(sys.ring, a))
      case Read => sys.(walk := WalkStep(sys.ring, sys.walk))
  }

  // ---- The walk, seen from one key ----

  function ValueOf<V>(e: Entry<V>): Option<V> { if e.Live? then Some(e.value) else None }

  /** What the copied caches say of a key; otherwise what is said elsewhere. */
  ghost function Found<K, V>(layers: seq<map<K, Entry<V>>>, k: K, otherwise: G.Reader<V>): G.Reader<V> {
    var a := Newest(layers, k);
    if a < |layers| then G.Returned(ValueOf(layers[a][k])) else otherwise
  }

  /** The walk as a read of k. */
  ghost function Project<K, V>(it: Walk<K, V>, k: K): G.Reader<V> {
    match it
    case Started => G.Called
    case HaveIndex(w) => G.HaveWriteIndex(w)
    case Walking(i, r, layers) => Found(layers, k, G.Scanning(i, r, |layers|))
    case ToStore(layers) => Found(layers, k, G.AtStore)
    case Finished(layers, table) => Found(layers, k, G.Returned(Lookup(table, k)))
  }

  lemma NewestAppend<K, V>(layers: seq<map<K, Entry<V>>>, m: map<K, Entry<V>>, k: K)
    ensures Newest(layers + [m], k) ==
            if Newest(layers, k) < |layers| then Newest(layers, k) else if k in m then |layers| else |layers| + 1
  {
    var a, b := Newest(layers, k), Newest(layers + [m], k);
    assert (layers + [m])[|layers|] == m;
    if a < |layers| {
      assert (layers + [m])[a] == layers[a];
    }
    if b < |layers| {
      assert (layers + [m])[b] == layers[b];
    }
  }

  lemma StepProjects<K, V>(s: State<K, V>, it: Walk<K, V>, k: K)
    requires WellFormed(s) && WalkOk(it)
    ensures G.ReaderOk(Project(it, k)) && Project(WalkStep(s, it), k) == G.ReaderStep(s, Project(it, k), k)
  {
    if it.Walking? && it.index != it.readIndex {
      NewestAppend(it.layers, s.caches[it.index], k);
    }
  }

  /** Under the same moves the walk, seen from k, is GetObject(k). */
  lemma {:induction false} WalkIsRead<K, V>(s: State<K, V>, moves: seq<G.Move<K, V>>, k: K)
    requires WellFormed(s) && ValidMoves(s, moves)
    ensures G.ValidMoves(s, k, moves)
    ensures G.Interleave(s, k, moves) == G.System(Interleave(s, moves).ring, Project(Interleave(s, moves).walk, k))
    decreases |moves|
  {
    if moves != [] {
      var init := moves[..|moves| - 1];
      WalkIsRead(s, init, k);
      StepProjects(Interleave(s, init).ring, Interleave(s, init).walk, k);
    }
  }

  // ---- What a finished walk saw ----

  ghost function AllCommits<K, V>(run: seq<Action<K, V>>, moves: seq<G.Move<K, V>>): seq<map<K, Entry<V>>> {
    Commits(run) + Commits(G.RingActions(moves))
  }

  /** The flat map after the first n commits. */
  ghost function TableAt<K, V>(store: map<K, V>, run: seq<Action<K, V>>, moves: seq<G.Move<K, V>>, n: nat): map<K, V>
    requires n <= |AllCommits(run, moves)|
  {
    Apply(store, Fold(AllCommits(run, moves)[..n]))
  }

  /** The key had this value, or none, at some moment between call and return. */
  ghost predicate HeldBetween<K, V>(store: map<K, V>, run: seq<Action<K, V>>, moves: seq<G.Move<K, V>>, k: K, v: Option<V>) {
    exists n: nat :: |Commits(run)| <= n <= |AllCommits(run, moves)| && Lookup(TableAt(store, run, moves, n), k) == v
  }

  /** The walk has come to its end, and this is what it saw. */
  ghost predicate Saw<K, V>(store: map<K, V>, run: seq<Action<K, V>>, moves: seq<G.Move<K, V>>,
                            layers: seq<map<K, Entry<V>>>, table: map<K, V>)
  {
    && ValidRun(Initial(store), run) && ValidMoves(Exec(Initial(store), run), moves)
    && Interleave(Exec(Initial(store), run), moves).walk == Finished(layers, table)
  }

  /** What a finished walk says of a key. */
  ghost function Said<K, V>(layers: seq<map<K, Entry<V>>>, table: map<K, V>, k: K): Option<V> {
    var a := Newest(layers, k);
    if a < |layers| then ValueOf(layers[a][k]) else Lookup(table, k)
  }

  lemma SaidWasHeld<K, V>(store: map<K, V>, run: seq<Action<K, V>>, moves: seq<G.Move<K, V>>,
                          layers: seq<map<K, Entry<V>>>, table: map<K, V>, k: K)
    requires Saw(store, run, moves, layers, table)
    ensures HeldBetween(store, run, moves, k, Said(layers, table, k))
  {
    WalkIsRead(Exec(Initial(store), run), moves, k);
    var n := G.GetReturnsHeldValue(store, run, k, moves);
    assert Lookup(TableAt(store, run, moves, n), k) == Said(layers, table, k);
  }

  // ---- The callbacks ----

  /** A ring that holds what the walk copied, so that the laws of an undisturbed iteration apply to it. */
  ghost function Frozen<K, V>(layers: seq<map<K, Entry<V>>>, table: map<K, V>): State<K, V>
    requires |layers| < CACHE_COUNT
  {
    var n := |layers|;
    State(seq(CACHE_COUNT, j requires 0 <= j < CACHE_COUNT => if 0 < j <= n then layers[n - j] else map[]),
          n, 0, table, Idle, Running)
  }

  lemma {:induction false} FrozenLayers<K, V>(layers: seq<map<K, Entry<V>>>, table: map<K, V>, i: nat)
    requires |layers| < CACHE_COUNT && i <= |layers|
    ensures Layers(Frozen(layers, table), i) == layers[|layers| - i..]
    decreases i
  {
    if i > 0 {
      FrozenLayers(layers, table, i - 1);
      var n := |layers|;
      assert layers[n - i..] == [layers[n - i]] + layers[n - i + 1..];
    }
  }

  lemma FrozenView<K, V>(layers: seq<map<K, Entry<V>>>, table: map<K, V>, k: K)
    requires |layers| < CACHE_COUNT
    ensures Lookup(View(Frozen(layers, table)), k) == Said(layers, table, k)
  {
    var s := Frozen(layers, table);
    FrozenLayers(layers, table, |layers|);
    assert layers[0..] == layers;
    NewestIsWindow(s, |layers|, k);
    ApplyLookup(table, Window(s, |layers|), k);
  }

  /** All callbacks of the interleaved iteration, in the given orders of the copied maps. */
  ghost function CallsMade<K, V, F>(layers: seq<map<K, Entry<V>>>, table: map<K, V>, orders: seq<seq<K>>,
                                   storeOrder: seq<K>, q: Query<K, F>): seq<(K, V)>
    requires AllEnumerate(orders, layers) && Enumerates(storeOrder, table)
  {
    var vs := Visits(layers, orders, q);
    RingCalls(vs, q) + StoreCalls(table, storeOrder, vs, q)
  }

  lemma CallsAreFrozen<K, V, F>(layers: seq<map<K, Entry<V>>>, table: map<K, V>, orders: seq<seq<K>>,
                                storeOrder: seq<K>, q: Query<K, F>)
    requires |layers| < CACHE_COUNT && AllEnumerate(orders, layers) && Enumerates(storeOrder, table)
    ensures Layers(Frozen(layers, table), |layers|) == layers
    ensures CallsMade(layers, table, orders, storeOrder, q) == Calls(Frozen(layers, table), orders, storeOrder, q)
  {
    FrozenLayers(layers, table, |layers|);
    assert layers[0..] == layers;
  }

  /**
   Whatever the interleaving, the orders and the folding: no key is called back twice, and every callback's
   value is one its key had at some moment between call and return.
   */
  lemma CallbacksWereHeld<K, V, F>(store: map<K, V>, run: seq<Action<K, V>>, moves: seq<G.Move<K, V>>,
                                   layers: seq<map<K, Entry<V>>>, table: map<K, V>, orders: seq<seq<K>>,
                                   storeOrder: seq<K>, q: Query<K, F>)
    requires Saw(store, run, moves, layers, table)
    requires AllEnumerate(orders, layers) && Enumerates(storeOrder, table)
    ensures DistinctKeys(CallsMade(layers, table, orders, storeOrder, q))
    ensures forall c :: c in CallsMade(layers, table, orders, storeOrder, q) ==>
              q.under(c.0) && HeldBetween(store, run, moves, c.0, Some(c.1))
  {
    CallsAreFrozen(layers, table, orders, storeOrder, q);
    CallsAreSound(Frozen(layers, table), orders, storeOrder, q);
    forall c | c in CallsMade(layers, table, orders, storeOrder, q)
      ensures q.under(c.0) && HeldBetween(store, run, moves, c.0, Some(c.1))
    {
      FrozenView(layers, table, c.0);
      SaidWasHeld(store, run, moves, layers, table, c.0);
    }
  }

  /** The key is in the flat map at every moment between call and return. */
  ghost predicate LiveThroughout<K, V>(store: map<K, V>, run: seq<Action<K, V>>, moves: seq<G.Move<K, V>>, k: K) {
    forall n: nat :: |Commits(run)| <= n <= |AllCommits(run, moves)| ==> k in TableAt(store, run, moves, n)
  }

  /**
   A key under the prefix that is live from call to return is called back, with a value it had in between,
   unless a differently spelled key that EqualFold takes for it was copied from the same or a newer cache.
   */
  lemma LiveThroughoutIsCalled<K(!new), V, F>(store: map<K, V>, run: seq<Action<K, V>>, moves: seq<G.Move<K, V>>,
                                              layers: seq<map<K, Entry<V>>>, table: map<K, V>, orders: seq<seq<K>>,
                                              storeOrder: seq<K>, q: Query<K, F>, k: K)
    requires Saw(store, run, moves, layers, table)
    requires AllEnumerate(orders, layers) && Enumerates(storeOrder, table)
    requires q.under(k) && LiveThroughout(store, run, moves, k)
    requires forall k', b: nat :: !Hides(Frozen(layers, table), q, k, k', b)
    ensures exists v :: (k, v) in CallsMade(layers, table, orders, storeOrder, q) && HeldBetween(store, run, moves, k, Some(v))
  {
    SaidWasHeld(store, run, moves, layers, table, k);
    var n: nat :| |Commits(run)| <= n <= |AllCommits(run, moves)|
                  && Lookup(TableAt(store, run, moves, n), k) == Said(layers, table, k);
    assert k in TableAt(store, run, moves, n);
    FrozenView(layers, table, k);
    CallsAreFrozen(layers, table, orders, storeOrder, q);
    LiveKeyIsCalled(Frozen(layers, table), orders, storeOrder, q, k);
    assert (k, View(Frozen(layers, table))[k]) in CallsMade(layers, table, orders, storeOrder, q);
  }
}
