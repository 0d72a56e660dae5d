/**
 IteratorObject: the caches from newest to oldest, then the store, calling back once per key.
 Keys already met are recognised by bytes.EqualFold, not by equality.  EqualFold compares the
 sequences of case-folded runes of its arguments, so it is modelled as equality of a canonical
 form `fold`, which the theorems take as a parameter.
 */
module MergedIteration {
  import opened Ring

  /** What to iterate over: the keys under a prefix, and the canonical form that EqualFold compares. */
  datatype Query<!K, !F> = Query(under: K -> bool, fold: K -> F)

  /** The caches of the live window, newest first. */
  function Layers<K, V>(s: State<K, V>, i: nat): seq<map<K, Entry<V>>>
    requires WellFormed(s) && i < CACHE_COUNT
    decreases Distance(s.readIndex, i)
  {
    if i == s.readIndex then [] else [s.caches[i]] + Layers(s, Prev(i))
  }

  /** Position of the newest layer holding k, or the number of layers. */
  ghost function Newest<K, V>(layers: seq<map<K, Entry<V>>>, k: K): (a: nat)
    ensures a <= |layers|
    ensures a < |layers| ==> k in layers[a]
    ensures forall b :: 0 <= b < a ==> k !in layers[b]
  {
    if layers == [] then 0
    else if k in layers[0] then 0
    else 1 + Newest(layers[1..], k)
  }

  lemma {:induction false} NewestIsWindow<K, V>(s: State<K, V>, i: nat, k: K)
    requires WellFormed(s) && i < CACHE_COUNT
    ensures var layers := Layers(s, i);
            var a := Newest(layers, k);
            if a < |layers| then k in Window(s, i) && Window(s, i)[k] == layers[a][k] else k !in Window(s, i)
    decreases Distance(s.readIndex, i)
  {
    if i != s.readIndex {
      var older := Layers(s, Prev(i));
      NewestIsWindow(s, Prev(i), k);
      assert Layers(s, i) == [s.caches[i]] + older && Layers(s, i)[1..] == older;
      if k !in s.caches[i] {
        assert Newest(Layers(s, i), k) == 1 + Newest(older, k);
      }
    }
  }

  // ---- The visits and the calls they cause ----

  /** A map's keys in the order its iteration yields them. */
  ghost predicate Enumerates<K, V>(order: seq<K>, m: map<K, V>) {
    && (forall k :: k in order ==> k in m)
    && (forall k :: k in m ==> k in order)
    && NoRepeats(order)
  }

  ghost predicate NoRepeats<K>(order: seq<K>) {
    forall i, j :: 0 <= i < j < |order| ==> order[i] != order[j]
  }

  /** The part of a map that an iteration has reached. */
  ghost function Among<K, V>(m: map<K, V>, order: seq<K>): map<K, V>
    requires forall k :: k in order ==> k in m
  {
    map k | k in order :: m[k]
  }

  lemma AmongStep<K, V>(m: map<K, V>, order: seq<K>)
    requires order != [] && NoRepeats(order) && forall k :: k in order ==> k in m
    ensures var n := |order| - 1;
            && NoRepeats(order[..n])
            && order[n] !in Among(m, order[..n])
            && Among(m, order[..n]) - {order[n]} == Among(m, order[..n])
            && Among(m, order) == Among(m, order[..n])[order[n] := m[order[n]]]
  {
    var n := |order| - 1;
    assert order[n] !in order[..n];
    assert order == order[..n] + [order[n]];
  }

  ghost predicate AllEnumerate<K, V>(orders: seq<seq<K>>, layers: seq<map<K, Entry<V>>>) {
    |orders| == |layers| && forall a :: 0 <= a < |layers| ==> Enumerates(orders[a], layers[a])
  }

  function LayerVisits<K, V, F>(m: map<K, Entry<V>>, order: seq<K>, q: Query<K, F>): seq<(K, Entry<V>)>
    requires forall k :: k in order ==> k in m
  {
    if order == [] then []
    else
      var last := order[|order| - 1];
      LayerVisits(m, order[..|order| - 1], q) + if q.under(last) then [(last, m[last])] else []
  }

  /** Every entry under the prefix, in the order the ring scan meets it. */
  function Visits<K, V, F>(layers: seq<map<K, Entry<V>>>, orders: seq<seq<K>>, q: Query<K, F>): seq<(K, Entry<V>)>
    requires AllEnumerate(orders, layers)
  {
    if layers == [] then []
    else
      var n := |layers| - 1;
      Visits(layers[..n], orders[..n], q) + LayerVisits(layers[n], orders[n], q)
  }

  predicate Seen<K, V, F(==)>(vs: seq<(K, Entry<V>)>, q: Query<K, F>, k: K) {
    exists i :: 0 <= i < |vs| && q.fold(vs[i].0) == q.fold(k)
  }

  /** The callbacks made while visiting the ring. */
  function RingCalls<K, V, F(==)>(vs: seq<(K, Entry<V>)>, q: Query<K, F>): seq<(K, V)> {
    if vs == [] then []
    else
      var n := |vs| - 1;
      RingCalls(vs[..n], q) +
      if vs[n].1.Live? && !Seen(vs[..n], q, vs[n].0) then [(vs[n].0, vs[n].1.value)] else []
  }

  /** The callbacks made while visiting the store, after the ring visits vs. */
  function StoreCalls<K, V, F(==)>(store: map<K, V>, order: seq<K>, vs: seq<(K, Entry<V>)>, q: Query<K, F>): seq<(K, V)>
    requires forall k :: k in order ==> k in store
  {
    if order == [] then []
    else
      var n := |order| - 1;
      StoreCalls(store, order[..n], vs, q) +
      if q.under(order[n]) && !Seen(vs, q, order[n]) then [(order[n], store[order[n]])] else []
  }

  /** All callbacks of a successful iteration. */
  function Calls<K, V, F(==)>(s: State<K, V>, orders: seq<seq<K>>, storeOrder: seq<K>, q: Query<K, F>): seq<(K, V)>
    requires WellFormed(s)
    requires AllEnumerate(orders, Layers(s, s.writeIndex)) && Enumerates(storeOrder, s.store)
  {
    var vs := Visits(Layers(s, s.writeIndex), orders, q);
    RingCalls(vs, q) + StoreCalls(s.store, storeOrder, vs, q)
  }

  /** The calls up to and including the first that returns an error. */
  function UntilError<K, V>(calls: seq<(K, V)>, fails: (K, V) -> bool): seq<(K, V)> {
    if calls == [] then []
    else if fails(calls[0].0, calls[0].1) then [calls[0]]
    else [calls[0]] + UntilError(calls[1..], fails)
  }

  /** One call per key of the table under the prefix, with the table's value, and no other call. */
  ghost predicate Exact<K, V, F>(calls: seq<(K, V)>, table: map<K, V>, q: Query<K, F>) {
    && DistinctKeys(calls)
    && (forall c :: c in calls ==> q.under(c.0) && c.0 in table && table[c.0] == c.1)
    && (forall k :: k in table && q.under(k) ==> (k, table[k]) in calls)
  }

  // ---- Which visits call back ----

  lemma {:induction false} RingCallsAre<K, V, F>(vs: seq<(K, Entry<V>)>, q: Query<K, F>, k: K, v: V)
    ensures (k, v) in RingCalls(vs, q) <==>
            exists j :: 0 <= j < |vs| && vs[j] == (k, Live(v)) && !Seen(vs[..j], q, k)
    decreases |vs|
  {
    if vs != [] {
      var n := |vs| - 1;
      RingCallsAre(vs[..n], q, k, v);
      forall j | 0 <= j < n ensures vs[..n][j] == vs[j] && vs[..n][..j] == vs[..j] { }
      if exists j :: 0 <= j < |vs| && vs[j] == (k, Live(v)) && !Seen(vs[..j], q, k) {
        var j :| 0 <= j < |vs| && vs[j] == (k, Live(v)) && !Seen(vs[..j], q, k);
        if j < n {
          assert vs[..n][j] == (k, Live(v)) && !Seen(vs[..n][..j], q, k);
        }
      }
    }
  }

  lemma {:induction false} StoreCallsAre<K, V, F>(store: map<K, V>, order: seq<K>, vs: seq<(K, Entry<V>)>, q: Query<K, F>, k: K, v: V)
    requires forall x :: x in order ==> x in store
    ensures (k, v) in StoreCalls(store, order, vs, q) <==>
            k in order && q.under(k) && store[k] == v && !Seen(vs, q, k)
    decreases |order|
  {
    if order != [] {
      StoreCallsAre(store, order[..|order| - 1], vs, q, k, v);
    }
  }

  ghost predicate DistinctKeys<K, V>(calls: seq<(K, V)>) {
    forall i, j :: 0 <= i < j < |calls| ==> calls[i].0 != calls[j].0
  }

  ghost predicate AllSeen<K, V, F>(calls: seq<(K, V)>, vs: seq<(K, Entry<V>)>, q: Query<K, F>) {
    forall i :: 0 <= i < |calls| ==> Seen(vs, q, calls[i].0)
  }

  ghost predicate UnseenIn<K, V, F>(calls: seq<(K, V)>, order: seq<K>, vs: seq<(K, Entry<V>)>, q: Query<K, F>) {
    forall i :: 0 <= i < |calls| ==> calls[i].0 in order && !Seen(vs, q, calls[i].0)
  }

  lemma SeenMore<K, V, F>(vs: seq<(K, Entry<V>)>, n: nat, q: Query<K, F>, k: K)
    requires n <= |vs| && Seen(vs[..n], q, k)
    ensures Seen(vs, q, k)
  {
    var i :| 0 <= i < n && q.fold(vs[..n][i].0) == q.fold(k);
    assert q.fold(vs[i].0) == q.fold(k);
  }

  /** Ring callbacks differ in canonical form, so also as keys. */
  lemma {:induction false} RingCallsDistinct<K, V, F>(vs: seq<(K, Entry<V>)>, q: Query<K, F>)
    ensures DistinctKeys(RingCalls(vs, q)) && AllSeen(RingCalls(vs, q), vs, q)
    decreases |vs|
  {
    if vs != [] {
      var n := |vs| - 1;
      RingCallsDistinct(vs[..n], q);
      var before, calls := RingCalls(vs[..n], q), RingCalls(vs, q);
      forall i | 0 <= i < |calls| ensures Seen(vs, q, calls[i].0) {
        if i < |before| {
          assert calls[i] == before[i];
          SeenMore(vs, n, q, calls[i].0);
        } else {
          assert q.fold(vs[n].0) == q.fold(calls[i].0);
        }
      }
      forall i, j | 0 <= i < j < |calls| ensures calls[i].0 != calls[j].0 {
        assert calls[i] == before[i] && Seen(vs[..n], q, before[i].0);
        assert j < |before| ==> calls[j] == before[j];
      }
    }
  }

  lemma {:induction false} StoreCallsDistinct<K, V, F>(store: map<K, V>, order: seq<K>, vs: seq<(K, Entry<V>)>, q: Query<K, F>)
    requires forall x :: x in order ==> x in store
    requires NoRepeats(order)
    ensures DistinctKeys(StoreCalls(store, order, vs, q)) && UnseenIn(StoreCalls(store, order, vs, q), order, vs, q)
    decreases |order|
  {
    if order != [] {
      var init := order[..|order| - 1];
      StoreCallsDistinct(store, init, vs, q);
      var before, calls := StoreCalls(store, init, vs, q), StoreCalls(store, order, vs, q);
      forall i | 0 <= i < |calls| ensures calls[i].0 in order && !Seen(vs, q, calls[i].0) {
        if i < |before| {
          assert calls[i] == before[i] && before[i].0 in init;
        }
      }
      forall i, j | 0 <= i < j < |calls| ensures calls[i].0 != calls[j].0 {
        assert calls[i] == before[i] && before[i].0 in init;
        assert j < |before| ==> calls[j] == before[j];
      }
    }
  }

  // ---- Visits and layers ----

  lemma {:induction false} LayerVisitsAre<K, V, F>(m: map<K, Entry<V>>, order: seq<K>, q: Query<K, F>, k: K, e: Entry<V>)
    requires forall x :: x in order ==> x in m
    ensures (k, e) in LayerVisits(m, order, q) <==> k in order && q.under(k) && m[k] == e
    decreases |order|
  {
    if order != [] {
      LayerVisitsAre(m, order[..|order| - 1], q, k, e);
    }
  }

  lemma {:induction false} VisitsAre<K, V, F>(layers: seq<map<K, Entry<V>>>, orders: seq<seq<K>>, q: Query<K, F>, k: K, e: Entry<V>)
    requires AllEnumerate(orders, layers)
    ensures (k, e) in Visits(layers, orders, q) <==>
            q.under(k) && SomeLayerHas(layers, k, e)
    decreases |layers|
  {
    if layers != [] {
      var n := |layers| - 1;
      VisitsAre(layers[..n], orders[..n], q, k, e);
      LayerVisitsAre(layers[n], orders[n], q, k, e);
      SomeLayerSplit(layers, k, e);
    }
  }

  ghost predicate SomeLayerHas<K, V>(layers: seq<map<K, Entry<V>>>, k: K, e: Entry<V>) {
    exists a :: 0 <= a < |layers| && k in layers[a] && layers[a][k] == e
  }

  lemma SomeLayerSplit<K, V>(layers: seq<map<K, Entry<V>>>, k: K, e: Entry<V>)
    requires layers != []
    ensures var n := |layers| - 1;
            SomeLayerHas(layers, k, e) <==> SomeLayerHas(layers[..n], k, e) || (k in layers[n] && layers[n][k] == e)
  {
    var n := |layers| - 1;
    if SomeLayerHas(layers, k, e) {
      var a :| 0 <= a < |layers| && k in layers[a] && layers[a][k] == e;
      assert a < n ==> k in layers[..n][a] && layers[..n][a][k] == e;
    }
    if SomeLayerHas(layers[..n], k, e) {
      var a :| 0 <= a < n && k in layers[..n][a] && layers[..n][a][k] == e;
      assert k in layers[a] && layers[a][k] == e;
    }
  }

  lemma {:induction false} NewestOfPrefix<K, V>(layers: seq<map<K, Entry<V>>>, n: nat, k: K)
    requires n <= |layers|
    ensures Newest(layers[..n], k) == if Newest(layers, k) < n then Newest(layers, k) else n
  {
  }

  /** A key first visited in the oldest layer is in no newer one. */
  lemma NotVisitedBefore<K, V, F>(layers: seq<map<K, Entry<V>>>, orders: seq<seq<K>>, q: Query<K, F>, j: nat)
    requires AllEnumerate(orders, layers) && layers != []
    requires var vs0 := Visits(layers[..|layers| - 1], orders[..|layers| - 1], q);
             |vs0| <= j < |Visits(layers, orders, q)|
    requires forall x :: 0 <= x < j ==> Visits(layers, orders, q)[x].0 != Visits(layers, orders, q)[j].0
    ensures var (k, e) := Visits(layers, orders, q)[j];
            Newest(layers, k) == |layers| - 1 && layers[|layers| - 1][k] == e
  {
    var n := |layers| - 1;
    var vs, vs0 := Visits(layers, orders, q), Visits(layers[..n], orders[..n], q);
    var (k, e) := vs[j];
    assert vs[j] == LayerVisits(layers[n], orders[n], q)[j - |vs0|];
    LayerVisitsAre(layers[n], orders[n], q, k, e);
    forall i | 0 <= i < |vs0| ensures vs0[i].0 != k { assert vs[i] == vs0[i]; }
    var a := Newest(layers, k);
    if a < n {
      assert k in layers[..n][a];
      VisitsAre(layers[..n], orders[..n], q, k, layers[a][k]);
    }
  }

  /** The first visit of a key meets its newest entry. */
  lemma {:induction false} FirstVisitIsNewest<K, V, F>(layers: seq<map<K, Entry<V>>>, orders: seq<seq<K>>, q: Query<K, F>, j: nat)
    requires AllEnumerate(orders, layers)
    requires j < |Visits(layers, orders, q)|
    requires forall x :: 0 <= x < j ==> Visits(layers, orders, q)[x].0 != Visits(layers, orders, q)[j].0
    ensures var (k, e) := Visits(layers, orders, q)[j];
            var a := Newest(layers, k);
            a < |layers| && layers[a][k] == e
    decreases |layers|
  {
    var n := |layers| - 1;
    var vs, vs0 := Visits(layers, orders, q), Visits(layers[..n], orders[..n], q);
    if j < |vs0| {
      NewestOfPrefix(layers, n, vs[j].0);
      assert forall i :: 0 <= i <= j ==> vs[i] == vs0[i];
      FirstVisitIsNewest(layers[..n], orders[..n], q, j);
    } else {
      NotVisitedBefore(layers, orders, q, j);
    }
  }

  /** Whatever is visited before k lies in a layer no older than k's newest. */
  lemma {:induction false} EarlierVisitIsNewer<K, V, F>(layers: seq<map<K, Entry<V>>>, orders: seq<seq<K>>, q: Query<K, F>, i: nat, j: nat)
      returns (b: nat)
    requires AllEnumerate(orders, layers)
    requires i < j < |Visits(layers, orders, q)|
    requires forall x :: 0 <= x < j ==> Visits(layers, orders, q)[x].0 != Visits(layers, orders, q)[j].0
    ensures b < |layers| && b <= Newest(layers, Visits(layers, orders, q)[j].0)
    ensures Visits(layers, orders, q)[i].0 in layers[b]
    decreases |layers|
  {
    var n := |layers| - 1;
    var vs, vs0 := Visits(layers, orders, q), Visits(layers[..n], orders[..n], q);
    NewestOfPrefix(layers, n, vs[j].0);
    if j < |vs0| {
      assert forall x :: 0 <= x <= j ==> vs[x] == vs0[x];
      b := EarlierVisitIsNewer(layers[..n], orders[..n], q, i, j);
    } else {
      VisitsAre(layers, orders, q, vs[i].0, vs[i].1);
      b :| 0 <= b < |layers| && vs[i].0 in layers[b] && layers[b][vs[i].0] == vs[i].1;
      NotVisitedBefore(layers, orders, q, j);
    }
  }

  lemma {:induction false} FirstVisit<K, V>(vs: seq<(K, Entry<V>)>, k: K, i: nat) returns (j: nat)
    requires i < |vs| && vs[i].0 == k
    ensures j <= i && vs[j].0 == k && forall x :: 0 <= x < j ==> vs[x].0 != k
    decreases i
  {
    if x :| 0 <= x < i && vs[x].0 == k {
      j := FirstVisit(vs, k, x);
    } else {
      j := i;
    }
  }

  // ---- Soundness: every call is right, whatever EqualFold confuses ----

  lemma CallsAreSound<K, V, F>(s: State<K, V>, orders: seq<seq<K>>, storeOrder: seq<K>, q: Query<K, F>)
    requires WellFormed(s)
    requires AllEnumerate(orders, Layers(s, s.writeIndex)) && Enumerates(storeOrder, s.store)
    ensures var calls := Calls(s, orders, storeOrder, q);
            && DistinctKeys(calls)
            && (forall c :: c in calls ==> q.under(c.0) && c.0 in View(s) && View(s)[c.0] == c.1)
  {
    var layers := Layers(s, s.writeIndex);
    var vs := Visits(layers, orders, q);
    var ring, rest := RingCalls(vs, q), StoreCalls(s.store, storeOrder, vs, q);
    RingCallsDistinct(vs, q);
    StoreCallsDistinct(s.store, storeOrder, vs, q);
    var calls: seq<(K, V)> := ring + rest;
    forall i, j | 0 <= i < j < |calls| ensures calls[i].0 != calls[j].0 {
      if i < |ring| <= j {
        assert Seen(vs, q, ring[i].0) && !Seen(vs, q, rest[j - |ring|].0);
      } else if |ring| <= i {
        assert calls[i] == rest[i - |ring|] && calls[j] == rest[j - |ring|];
      }
    }
    forall c | c in calls ensures q.under(c.0) && c.0 in View(s) && View(s)[c.0] == c.1 {
      var (k, v) := c;
      NewestIsWindow(s, s.writeIndex, k);
      ApplyLookup(s.store, Window(s, s.writeIndex), k);
      RingCallsAre(vs, q, k, v);
      StoreCallsAre(s.store, storeOrder, vs, q, k, v);
      if c in ring {
        var j :| 0 <= j < |vs| && vs[j] == (k, Live(v)) && !Seen(vs[..j], q, k);
        forall i | 0 <= i < j ensures vs[i].0 != vs[j].0 { assert vs[..j][i] == vs[i]; }
        FirstVisitIsNewest(layers, orders, q, j);
        VisitsAre(layers, orders, q, k, Live(v));
      } else {
        UnseenIsUnlayered(layers, orders, q, k);
      }
    }
  }

  /** A key under the prefix that the scan has not seen is in no layer. */
  lemma UnseenIsUnlayered<K, V, F>(layers: seq<map<K, Entry<V>>>, orders: seq<seq<K>>, q: Query<K, F>, k: K)
    requires AllEnumerate(orders, layers) && q.under(k) && !Seen(Visits(layers, orders, q), q, k)
    ensures Newest(layers, k) == |layers|
  {
    var vs, a := Visits(layers, orders, q), Newest(layers, k);
    forall i | 0 <= i < |vs| ensures vs[i].0 != k {
      assert q.fold(vs[i].0) != q.fold(k);
    }
    if a < |layers| {
      VisitsAre(layers, orders, q, k, layers[a][k]);
    }
  }

  // ---- Completeness: exactly when no live key is hidden by another of the same canonical form ----

  /**
   Key k of the flat map can be hidden by k': another key under the prefix with the same canonical
   form sits in a cache no older than the newest one holding k (any cache, if only the store holds k).
   */
  ghost predicate Hides<K, V, F>(s: State<K, V>, q: Query<K, F>, k: K, k': K, b: nat)
    requires WellFormed(s)
  {
    var layers := Layers(s, s.writeIndex);
    && k != k' && q.under(k) && q.under(k') && q.fold(k) == q.fold(k')
    && k in View(s)
    && b < |layers| && b <= Newest(layers, k) && k' in layers[b]
  }

  ghost predicate NothingHidden<K(!new), V, F>(s: State<K, V>, q: Query<K, F>)
    requires WellFormed(s)
  {
    forall k, k', b: nat :: !Hides(s, q, k, k', b)
  }

  lemma LiveKeyIsCalled<K(!new), V, F>(s: State<K, V>, orders: seq<seq<K>>, storeOrder: seq<K>, q: Query<K, F>, k: K)
    requires WellFormed(s) && forall k', b: nat :: !Hides(s, q, k, k', b)
    requires AllEnumerate(orders, Layers(s, s.writeIndex)) && Enumerates(storeOrder, s.store)
    requires k in View(s) && q.under(k)
    ensures (k, View(s)[k]) in Calls(s, orders, storeOrder, q)
  {
    var layers := Layers(s, s.writeIndex);
    var vs, a, v := Visits(layers, orders, q), Newest(layers, k), View(s)[k];
    NewestIsWindow(s, s.writeIndex, k);
    ApplyLookup(s.store, Window(s, s.writeIndex), k);
    RingCallsAre(vs, q, k, v);
    StoreCallsAre(s.store, storeOrder, vs, q, k, v);
    if a < |layers| {
      VisitsAre(layers, orders, q, k, layers[a][k]);
      var i :| 0 <= i < |vs| && vs[i] == (k, layers[a][k]);
      var j := FirstVisit(vs, k, i);
      FirstVisitIsNewest(layers, orders, q, j);
      forall x | 0 <= x < j ensures q.fold(vs[..j][x].0) != q.fold(k) {
        var b := EarlierVisitIsNewer(layers, orders, q, x, j);
        VisitsAre(layers, orders, q, vs[x].0, vs[x].1);
        assert !Hides(s, q, k, vs[x].0, b);
      }
      assert vs[j] == (k, Live(v)) && !Seen(vs[..j], q, k);
    } else {
      forall x | 0 <= x < |vs| ensures q.fold(vs[x].0) != q.fold(k) {
        VisitsAre(layers, orders, q, vs[x].0, vs[x].1);
        var b :| 0 <= b < |layers| && vs[x].0 in layers[b] && layers[b][vs[x].0] == vs[x].1;
        assert !Hides(s, q, k, vs[x].0, b);
      }
    }
  }

  // ---- Orders in which a given key comes first ----

  lemma {:induction false} EnumerateSet<K>(keys: set<K>) returns (order: seq<K>)
    ensures forall k :: k in order ==> k in keys
    ensures forall k :: k in keys ==> k in order
    ensures forall i, j :: 0 <= i < j < |order| ==> order[i] != order[j]
    decreases keys
  {
    if keys == {} {
      order := [];
    } else {
      var k :| k in keys;
      var rest := EnumerateSet(keys - {k});
      order := [k] + rest;
    }
  }

  ghost predicate LeadsWith<K>(order: seq<K>, k: K) {
    k in order ==> order[0] == k
  }

  lemma EnumerateFirst<K, V>(m: map<K, V>, k: K) returns (order: seq<K>)
    ensures Enumerates(order, m) && LeadsWith(order, k)
  {
    var rest := EnumerateSet(m.Keys - {k});
    order := if k in m then [k] + rest else rest;
  }

  lemma {:induction false} EnumerateAllFirst<K, V>(layers: seq<map<K, Entry<V>>>, k: K) returns (orders: seq<seq<K>>)
    ensures AllEnumerate(orders, layers)
    ensures forall a :: 0 <= a < |orders| ==> LeadsWith(orders[a], k)
    decreases |layers|
  {
    if layers == [] {
      orders := [];
    } else {
      var n := |layers| - 1;
      var init := EnumerateAllFirst(layers[..n], k);
      var last := EnumerateFirst(layers[n], k);
      orders := init + [last];
    }
  }

  lemma {:induction false} LayerStart<K, V, F>(m: map<K, Entry<V>>, order: seq<K>, q: Query<K, F>)
    requires forall k :: k in order ==> k in m
    requires order != [] && q.under(order[0])
    ensures |LayerVisits(m, order, q)| > 0 && LayerVisits(m, order, q)[0].0 == order[0]
    decreases |order|
  {
    if |order| > 1 {
      LayerStart(m, order[..|order| - 1], q);
    }
  }

  /** With k' leading every order, k' is visited before any visit of k. */
  lemma {:induction false} LeaderComesFirst<K, V, F>(
      layers: seq<map<K, Entry<V>>>, orders: seq<seq<K>>, q: Query<K, F>, k: K, k': K, b: nat, j: nat) returns (i: nat)
    requires AllEnumerate(orders, layers) && forall a :: 0 <= a < |orders| ==> LeadsWith(orders[a], k')
    requires k != k' && q.under(k') && b < |layers| && b <= Newest(layers, k) && k' in layers[b]
    requires j < |Visits(layers, orders, q)| && Visits(layers, orders, q)[j].0 == k
    ensures i < j && Visits(layers, orders, q)[i].0 == k'
    decreases |layers|
  {
    var n := |layers| - 1;
    var vs, vs0 := Visits(layers, orders, q), Visits(layers[..n], orders[..n], q);
    if j < |vs0| {
      assert vs[j] == vs0[j];
      VisitsAre(layers[..n], orders[..n], q, k, vs0[j].1);
      NewestOfPrefix(layers, n, k);
      i := LeaderComesFirst(layers[..n], orders[..n], q, k, k', b, j);
    } else if b < n {
      assert k' in layers[..n][b];
      VisitsAre(layers[..n], orders[..n], q, k', layers[b][k']);
      i :| 0 <= i < |vs0| && vs0[i] == (k', layers[b][k']);
      assert vs[i] == vs0[i];
    } else {
      LayerStart(layers[n], orders[n], q);
      i := |vs0|;
      assert vs[i] == LayerVisits(layers[n], orders[n], q)[0];
    }
  }

  /** A hidden key is missed under some iteration order of the maps. */
  lemma HiddenKeyIsMissed<K, V, F>(s: State<K, V>, q: Query<K, F>, k: K, k': K, b: nat)
      returns (orders: seq<seq<K>>, storeOrder: seq<K>)
    requires WellFormed(s) && Hides(s, q, k, k', b)
    ensures AllEnumerate(orders, Layers(s, s.writeIndex)) && Enumerates(storeOrder, s.store)
    ensures (k, View(s)[k]) !in Calls(s, orders, storeOrder, q)
  {
    var layers, v := Layers(s, s.writeIndex), View(s)[k];
    orders := EnumerateAllFirst(layers, k');
    storeOrder := EnumerateSet(s.store.Keys);
    var vs := Visits(layers, orders, q);
    RingCallsAre(vs, q, k, v);
    StoreCallsAre(s.store, storeOrder, vs, q, k, v);
    VisitsAre(layers, orders, q, k', layers[b][k']);
    var x :| 0 <= x < |vs| && vs[x] == (k', layers[b][k']);
    assert q.fold(vs[x].0) == q.fold(k);
    forall j | 0 <= j < |vs| && vs[j] == (k, Live(v)) ensures Seen(vs[..j], q, k) {
      var i := LeaderComesFirst(layers, orders, q, k, k', b, j);
      assert q.fold(vs[..j][i].0) == q.fold(k);
    }
  }

  ghost predicate AlwaysExact<K(!new), V, F>(s: State<K, V>, q: Query<K, F>)
    requires WellFormed(s)
  {
    forall orders, storeOrder ::
      AllEnumerate(orders, Layers(s, s.writeIndex)) && Enumerates(storeOrder, s.store) ==>
      Exact(Calls(s, orders, storeOrder, q), View(s), q)
  }

  /**
   Merged iteration is exact, whatever order the maps are walked in, if and only if no live key
   can be hidden by another key that EqualFold takes for it.
   */
  lemma IterationExactIff<K(!new), V, F>(s: State<K, V>, q: Query<K, F>)
    requires WellFormed(s)
    ensures AlwaysExact(s, q) <==> NothingHidden(s, q)
  {
    if NothingHidden(s, q) {
      forall orders, storeOrder |
        AllEnumerate(orders, Layers(s, s.writeIndex)) && Enumerates(storeOrder, s.store)
        ensures Exact(Calls(s, orders, storeOrder, q), View(s), q)
      {
        CallsAreSound(s, orders, storeOrder, q);
        forall k | k in View(s) && q.under(k) ensures (k, View(s)[k]) in Calls(s, orders, storeOrder, q) {
          LiveKeyIsCalled(s, orders, storeOrder, q, k);
        }
      }
    } else {
      var k, k', b: nat :| Hides(s, q, k, k', b);
      var orders, storeOrder := HiddenKeyIsMissed(s, q, k, k', b);
      assert !Exact(Calls(s, orders, storeOrder, q), View(s), q);
    }
  }

  /** With exact key comparison nothing is ever hidden. */
  lemma ExactComparison<K(!new), V, F>(s: State<K, V>, q: Query<K, F>)
    requires WellFormed(s)
    requires forall k, k' :: q.under(k) && q.under(k') && q.fold(k) == q.fold(k') ==> k == k'
    ensures AlwaysExact(s, q)
  {
    IterationExactIff(s, q);
  }

  /** ASCII case folding, the part of EqualFold the example below needs. */
  function Lower(c: char): char {
    if 'A' <= c <= 'Z' then c - 'A' + 'a' else c
  }

  /** A fresh write of key "A" makes the iteration skip the stored key "a". */
  lemma CaseCollision()
    ensures var s := Step(Initial(map['a' := 1]), Commit(map['A' := Live(2)]));
            var q := Query((_: char) => true, Lower);
            View(s) == map['a' := 1, 'A' := 2] && !AlwaysExact(s, q)
  {
    var s0 := Initial(map['a' := 1]);
    var s := Step(s0, Commit(map['A' := Live(2)]));
    var q := Query((_: char) => true, Lower);
    assert s.caches[1] == map['A' := Live(2)] && s.caches[0] == map[];
    assert Prev(1) == 0 && Window(s, 0) == map[];
    assert Window(s, 1) == map['A' := Live(2)];
    assert View(s) == map['a' := 1, 'A' := 2];
    assert Layers(s, 0) == [];
    assert Layers(s, 1) == [s.caches[1]];
    assert Hides(s, q, 'a', 'A', 0);
    IterationExactIff(s, q);
  }

  // ---- The loops ----

  /** contain: a linear search with EqualFold. */
  method Contains<K(==), F(==)>(keys: seq<K>, q: Query<K, F>, k: K) returns (found: bool)
    ensures found <==> exists i :: 0 <= i < |keys| && q.fold(keys[i]) == q.fold(k)
  {
    var i := 0;
    while i < |keys|
      invariant 0 <= i <= |keys|
      invariant forall j :: 0 <= j < i ==> q.fold(keys[j]) != q.fold(k)
    {
      if q.fold(keys[i]) == q.fold(k) {
        return true;
      }
      i := i + 1;
    }
    return false;
  }

  ghost predicate NoError<K, V>(calls: seq<(K, V)>, fails: (K, V) -> bool) {
    forall i :: 0 <= i < |calls| ==> !fails(calls[i].0, calls[i].1)
  }

  lemma {:induction false} UntilErrorSplit<K, V>(a: seq<(K, V)>, b: seq<(K, V)>, fails: (K, V) -> bool)
    requires NoError(a, fails)
    ensures UntilError(a + b, fails) == a + UntilError(b, fails)
    decreases |a|
  {
    if a == [] {
      assert a + b == b;
    } else {
      assert (a + b)[1..] == a[1..] + b;
      UntilErrorSplit(a[1..], b, fails);
    }
  }

  /** An error at call c ends the iteration there. */
  lemma UntilErrorStops<K, V>(done: seq<(K, V)>, c: (K, V), all: seq<(K, V)>, fails: (K, V) -> bool)
    requires NoError(done, fails) && fails(c.0, c.1) && done + [c] <= all
    ensures UntilError(all, fails) == done + [c]
  {
    var rest := all[|done|..];
    assert all == done + rest && rest[0] == c;
    UntilErrorSplit(done, rest, fails);
  }

  lemma UntilErrorAll<K, V>(calls: seq<(K, V)>, fails: (K, V) -> bool)
    requires NoError(calls, fails)
    ensures UntilError(calls, fails) == calls
  {
    UntilErrorSplit(calls, [], fails);
    assert calls + [] == calls;
  }

  lemma {:induction false} RingCallsPrefix<K, V, F>(vs: seq<(K, Entry<V>)>, n: nat, q: Query<K, F>)
    requires n <= |vs|
    ensures RingCalls(vs[..n], q) <= RingCalls(vs, q)
    decreases |vs|
  {
    if n < |vs| {
      assert vs[..|vs| - 1][..n] == vs[..n];
      RingCallsPrefix(vs[..|vs| - 1], n, q);
    } else {
      assert vs[..n] == vs;
    }
  }

  lemma {:induction false} StoreCallsPrefix<K, V, F>(store: map<K, V>, order: seq<K>, n: nat, vs: seq<(K, Entry<V>)>, q: Query<K, F>)
    requires (forall k :: k in order ==> k in store) && n <= |order|
    ensures StoreCalls(store, order[..n], vs, q) <= StoreCalls(store, order, vs, q)
    decreases |order|
  {
    if n < |order| {
      assert order[..|order| - 1][..n] == order[..n];
      StoreCallsPrefix(store, order[..|order| - 1], n, vs, q);
    } else {
      assert order[..n] == order;
    }
  }

  lemma {:induction false} VisitsPrefix<K, V, F>(layers: seq<map<K, Entry<V>>>, orders: seq<seq<K>>, q: Query<K, F>, a: nat, i: nat)
    requires AllEnumerate(orders, layers) && a < |layers| && i <= |orders[a]|
    ensures Visits(layers[..a], orders[..a], q) + LayerVisits(layers[a], orders[a][..i], q) <= Visits(layers, orders, q)
    decreases |layers|
  {
    var n := |layers| - 1;
    if a < n {
      assert layers[..n][..a] == layers[..a] && orders[..n][..a] == orders[..a];
      VisitsPrefix(layers[..n], orders[..n], q, a, i);
    } else {
      LayerVisitsPrefix(layers[n], orders[n], q, i);
    }
  }

  lemma {:induction false} LayerVisitsPrefix<K, V, F>(m: map<K, Entry<V>>, order: seq<K>, q: Query<K, F>, i: nat)
    requires (forall k :: k in order ==> k in m) && i <= |order|
    ensures LayerVisits(m, order[..i], q) <= LayerVisits(m, order, q)
    decreases |order|
  {
    if i < |order| {
      assert order[..|order| - 1][..i] == order[..i];
      LayerVisitsPrefix(m, order[..|order| - 1], q, i);
    } else {
      assert order[..i] == order;
    }
  }

  lemma RingCallsStep<K, V, F>(vs: seq<(K, Entry<V>)>, k: K, e: Entry<V>, q: Query<K, F>)
    ensures RingCalls(vs + [(k, e)], q) ==
            RingCalls(vs, q) + if e.Live? && !Seen(vs, q, k) then [(k, e.value)] else []
  {
    assert (vs + [(k, e)])[..|vs|] == vs;
  }

  lemma VisitStep<K, V, F>(done: seq<(K, Entry<V>)>, m: map<K, Entry<V>>, order: seq<K>, n: nat, q: Query<K, F>)
    requires (forall k :: k in order ==> k in m) && n < |order|
    ensures done + LayerVisits(m, order[..n + 1], q) ==
            done + LayerVisits(m, order[..n], q) + if q.under(order[n]) then [(order[n], m[order[n]])] else []
  {
    assert order[..n + 1][..n] == order[..n];
  }

  ghost predicate KeysOf<K, V>(keys: seq<K>, vs: seq<(K, Entry<V>)>) {
    |keys| == |vs| && forall i :: 0 <= i < |vs| ==> keys[i] == vs[i].0
  }

  lemma LayersTail<K, V>(s: State<K, V>, i: nat)
    requires WellFormed(s) && i < CACHE_COUNT && i != s.readIndex
    ensures |Layers(s, i)| > 0 && Layers(s, i)[0] == s.caches[i] && Layers(s, i)[1..] == Layers(s, Prev(i))
  {
  }

  /** One cache of prefixIteratorObject: `done` are the visits made before it. */
  method IterateCache<K(==), V, F(==)>(
      m: map<K, Entry<V>>, order: seq<K>, q: Query<K, F>, fails: (K, V) -> bool,
      keys0: seq<K>, calls0: seq<(K, V)>, ghost done: seq<(K, Entry<V>)>)
      returns (keys: seq<K>, calls: seq<(K, V)>, ok: bool, ghost i: nat)
    requires Enumerates(order, m) && KeysOf(keys0, done) && calls0 == RingCalls(done, q) && NoError(calls0, fails)
    ensures i <= |order| && calls == RingCalls(done + LayerVisits(m, order[..i], q), q)
    ensures ok ==> i == |order| && KeysOf(keys, done + LayerVisits(m, order, q)) && NoError(calls, fails)
    ensures !ok ==> StoppedAt(calls, fails)
  {
    keys, calls, i := keys0, calls0, 0;
    ghost var vs := done;
    assert done + LayerVisits(m, order[..0], q) == done;
    var n := 0;
    while n < |order|
      invariant 0 <= n == i <= |order|
      invariant vs == done + LayerVisits(m, order[..n], q)
      invariant KeysOf(keys, vs) && calls == RingCalls(vs, q) && NoError(calls, fails)
    {
      var k := order[n];
      VisitStep(done, m, order, n, q);
      n, i := n + 1, i + 1;
      if q.under(k) {
        RingCallsStep(vs, k, m[k], q);
        var found := Contains(keys, q, k);
        assert found <==> Seen(vs, q, k);
        vs := vs + [(k, m[k])];
        if !found && m[k].Live? {
          calls := calls + [(k, m[k].value)];
          if fails(k, m[k].value) {
            ok := false;
            return;
          }
        }
        keys := keys + [k];
      }
    }
    ok := true;
    assert order[..n] == order;
  }

  /** The calls made so far end with the first error. */
  ghost predicate StoppedAt<K, V>(calls: seq<(K, V)>, fails: (K, V) -> bool) {
    calls != [] && NoError(calls[..|calls| - 1], fails) && fails(calls[|calls| - 1].0, calls[|calls| - 1].1)
  }

  lemma StoppedIsUntilError<K, V>(calls: seq<(K, V)>, all: seq<(K, V)>, fails: (K, V) -> bool)
    requires StoppedAt(calls, fails) && calls <= all
    ensures UntilError(all, fails) == calls && !NoError(all, fails)
  {
    var n := |calls| - 1;
    assert calls == calls[..n] + [calls[n]];
    UntilErrorStops(calls[..n], calls[n], all, fails);
    assert all[n] == calls[n];
  }

  lemma RingCallsSoFar<K, V, F>(layers: seq<map<K, Entry<V>>>, orders: seq<seq<K>>, q: Query<K, F>, a: nat, i: nat)
    requires AllEnumerate(orders, layers) && a < |layers| && i <= |orders[a]|
    ensures RingCalls(Visits(layers[..a], orders[..a], q) + LayerVisits(layers[a], orders[a][..i], q), q)
            <= RingCalls(Visits(layers, orders, q), q)
  {
    var all := Visits(layers, orders, q);
    var met := Visits(layers[..a], orders[..a], q) + LayerVisits(layers[a], orders[a][..i], q);
    VisitsPrefix(layers, orders, q, a, i);
    assert all[..|met|] == met;
    RingCallsPrefix(all, |met|, q);
  }

  lemma NextLayer<K, V, F>(layers: seq<map<K, Entry<V>>>, orders: seq<seq<K>>, q: Query<K, F>, a: nat)
    requires AllEnumerate(orders, layers) && a < |layers|
    ensures Visits(layers[..a + 1], orders[..a + 1], q) ==
            Visits(layers[..a], orders[..a], q) + LayerVisits(layers[a], orders[a][..|orders[a]|], q)
  {
    assert orders[a][..|orders[a]|] == orders[a];
    assert layers[..a + 1][..a] == layers[..a] && orders[..a + 1][..a] == orders[..a];
  }

  /** prefixIteratorObject: the ring, from the write cache back to the last flushed one. */
  method IterateRing<K(==), V, F(==)>(s: State<K, V>, orders: seq<seq<K>>, q: Query<K, F>, fails: (K, V) -> bool)
      returns (keys: seq<K>, calls: seq<(K, V)>, ok: bool)
    requires WellFormed(s) && AllEnumerate(orders, Layers(s, s.writeIndex))
    ensures calls <= RingCalls(Visits(Layers(s, s.writeIndex), orders, q), q)
    ensures ok ==> KeysOf(keys, Visits(Layers(s, s.writeIndex), orders, q)) && NoError(calls, fails)
    ensures ok ==> calls == RingCalls(Visits(Layers(s, s.writeIndex), orders, q), q)
    ensures !ok ==> StoppedAt(calls, fails)
  {
    ghost var layers := Layers(s, s.writeIndex);
    ghost var vs: seq<(K, Entry<V>)> := [];
    keys, calls, ok := [], [], true;
    var index, a := s.writeIndex, 0;
    while index != s.readIndex
      invariant 0 <= index < CACHE_COUNT && 0 <= a <= |layers| && layers[a..] == Layers(s, index)
      invariant vs == Visits(layers[..a], orders[..a], q)
      invariant KeysOf(keys, vs) && calls == RingCalls(vs, q) && NoError(calls, fails) && ok
      decreases Distance(s.readIndex, index)
    {
      LayersTail(s, index);
      assert layers[a] == s.caches[index];
      ghost var i;
      keys, calls, ok, i := IterateCache(s.caches[index], orders[a], q, fails, keys, calls, vs);
      if !ok {
        RingCallsSoFar(layers, orders, q, a, i);
        return;
      }
      NextLayer(layers, orders, q, a);
      assert orders[a][..i] == orders[a];
      vs := vs + LayerVisits(layers[a], orders[a], q);
      assert layers[a + 1..] == layers[a..][1..];
      index, a := if index == 0 then CACHE_COUNT - 1 else index - 1, a + 1;
    }
    assert layers[..a] == layers && orders[..a] == orders;
  }

  /** The store part: every key under the prefix that the ring has not met. */
  method IterateStore<K(==), V, F(==)>(
      store: map<K, V>, order: seq<K>, q: Query<K, F>, fails: (K, V) -> bool, keys: seq<K>, ghost vs: seq<(K, Entry<V>)>)
      returns (calls: seq<(K, V)>, ok: bool)
    requires Enumerates(order, store) && KeysOf(keys, vs)
    ensures calls <= StoreCalls(store, order, vs, q)
    ensures ok ==> calls == StoreCalls(store, order, vs, q) && NoError(calls, fails)
    ensures !ok ==> StoppedAt(calls, fails)
  {
    calls, ok := [], true;
    var n := 0;
    while n < |order|
      invariant 0 <= n <= |order|
      invariant calls == StoreCalls(store, order[..n], vs, q) && NoError(calls, fails) && ok
    {
      var k := order[n];
      assert order[..n + 1][..n] == order[..n];
      if q.under(k) {
        var found := Contains(keys, q, k);
        assert found <==> Seen(vs, q, k);
        if !found {
          ghost var before := calls;
          calls := calls + [(k, store[k])];
          if fails(k, store[k]) {
            StoreCallsPrefix(store, order, n + 1, vs, q);
            assert calls[..|calls| - 1] == before;
            ok := false;
            return;
          }
        }
      }
      n := n + 1;
    }
    assert order[..n] == order;
  }

  lemma StoppedLater<K, V>(ring: seq<(K, V)>, rest: seq<(K, V)>, fails: (K, V) -> bool)
    requires NoError(ring, fails) && StoppedAt(rest, fails)
    ensures StoppedAt(ring + rest, fails)
  {
    var calls := ring + rest;
    assert calls[..|calls| - 1] == ring + rest[..|rest| - 1];
  }

  /**
   IteratorObject: the ring, then every store key the ring has not met.  It makes the calls of
   the specification, stopping at the first callback that returns an error.
   */
  method IteratorObject<K(==), V, F(==)>(
      s: State<K, V>, orders: seq<seq<K>>, storeOrder: seq<K>, q: Query<K, F>, fails: (K, V) -> bool)
      returns (calls: seq<(K, V)>, ok: bool)
    requires WellFormed(s) && AllEnumerate(orders, Layers(s, s.writeIndex)) && Enumerates(storeOrder, s.store)
    ensures calls == UntilError(Calls(s, orders, storeOrder, q), fails)
    ensures ok <==> NoError(Calls(s, orders, storeOrder, q), fails)
  {
    ghost var all := Calls(s, orders, storeOrder, q);
    var keys, ring;
    keys, ring, ok := IterateRing(s, orders, q, fails);
    if !ok {
      calls := ring;
      StoppedIsUntilError(calls, all, fails);
      return;
    }
    var rest;
    rest, ok := IterateStore(s.store, storeOrder, q, fails, keys, Visits(Layers(s, s.writeIndex), orders, q));
    calls := ring + rest;
    if ok {
      UntilErrorAll(all, fails);
    } else {
      StoppedLater(ring, rest, fails);
      StoppedIsUntilError(calls, all, fails);
    }
  }
}
