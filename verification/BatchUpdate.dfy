/**
 BatchUpdate: a callback writes into a temporary cache; if it succeeds, the temporary cache
 is copied into the ring as one commit, and either way the temporary cache is given back.
 */
module BatchUpdate {
  import opened Ring
  import opened RingHistory
  import opened RingTheorems
  import opened MemoryCache
  import opened LedgerStore

  /**
   The pool of temporary caches.  `active` is the set of caches held by running batches.
   Its methods are the atomic steps of concurrent batches: giving a cache back is Purge
   followed by Free, and other batches may acquire caches in between.
   */
  class TempPool<K(==), V> {
    var slots: seq<Cache<K, V>>
    ghost var active: set<Cache<K, V>>

    /** A cache is free exactly when its quote is 0, and a free cache is empty. */
    ghost predicate Valid()
      reads this, slots
    {
      && (forall i, j :: 0 <= i < j < |slots| ==> slots[i] != slots[j])
      && (forall c :: c in slots ==> (c.quote == 0 <==> c !in active))
      && (forall c :: c in slots && c !in active ==> c.entries == map[])
    }

    constructor (size: nat)
      ensures Valid() && |slots| == size && active == {}
      ensures forall c :: c in slots ==> fresh(c)
    {
      var cs: seq<Cache<K, V>> := [];
      while |cs| < size
        invariant |cs| <= size
        invariant forall i, j :: 0 <= i < j < |cs| ==> cs[i] != cs[j]
        invariant forall c :: c in cs ==> fresh(c) && c.quote == 0 && c.entries == map[]
      {
        var c := new Cache<K, V>();
        cs := cs + [c];
      }
      slots, active := cs, {};
    }

    /** getTempCache: an empty cache that no other batch holds. */
    method Acquire() returns (c: Cache<K, V>)
      requires Valid()
      modifies this`active, slots
      ensures Valid() && slots == old(slots)
      ensures c !in old(active) && active == old(active) + {c}
      ensures c.entries == map[]
      ensures c in slots || fresh(c)
      ensures (exists d :: d in slots && d !in old(active)) ==> c in slots
      ensures forall d :: d in slots && d != c ==> d.entries == old(d.entries) && d.quote == old(d.quote)
    {
      var i := 0;
      while i < |slots|
        invariant 0 <= i <= |slots| && Valid() && active == old(active)
        invariant forall j :: 0 <= j < i ==> slots[j] in active
        invariant forall d :: d in slots ==> d.entries == old(d.entries) && d.quote == old(d.quote)
      {
        c := slots[i];
        if c.quote == 0 {
          if |c.entries| > 0 {
            break;
          }
          c.quote := 1;
          active := active + {c};
          return;
        }
        i := i + 1;
      }
      c := new Cache<K, V>();
      active := active + {c};
    }

    /** First half of releaseTempCache. */
    method Purge(c: Cache<K, V>)
      requires Valid() && c in active
      modifies c`entries
      ensures Valid() && c.entries == map[]
    {
      c.entries := map[];
    }

    /** Second half of releaseTempCache. */
    method Free(c: Cache<K, V>)
      requires Valid() && c in active && c.entries == map[]
      modifies this`active, c`quote
      ensures Valid() && active == old(active) - {c} && slots == old(slots) && c.quote == 0
    {
      c.quote := 0;
      active := active - {c};
    }
  }

  /** What a callback leaves in its temporary cache: its writes in order, the last one per key. */
  function Written<K, V>(writes: seq<(K, Entry<V>)>): map<K, Entry<V>> {
    if writes == [] then map[]
    else Written(writes[..|writes| - 1])[writes[|writes| - 1].0 := writes[|writes| - 1].1]
  }

  /** The writes made one at a time on the flat map. */
  function Replay<K, V>(t: map<K, V>, writes: seq<(K, Entry<V>)>): map<K, V>
    decreases |writes|
  {
    if writes == [] then t
    else
      var (k, e) := writes[0];
      Replay(if e.Live? then t[k := e.value] else t - {k}, writes[1..])
  }

  lemma {:induction false} ReplayLast<K, V>(t: map<K, V>, writes: seq<(K, Entry<V>)>)
    requires writes != []
    ensures var n := |writes| - 1;
            var (k, e), before := writes[n], Replay(t, writes[..n]);
            Replay(t, writes) == if e.Live? then before[k := e.value] else before - {k}
    decreases |writes|
  {
    var n := |writes| - 1;
    if n > 0 {
      var (k, e) := writes[0];
      var rest := writes[1..];
      ReplayLast(if e.Live? then t[k := e.value] else t - {k}, rest);
      assert rest[..n - 1] == writes[..n][1..];
    }
  }

  /** The batch a callback leaves does to the flat map what its writes do one after the other. */
  lemma {:induction false} WrittenIsReplay<K, V>(t: map<K, V>, writes: seq<(K, Entry<V>)>)
    ensures Apply(t, Written(writes)) == Replay(t, writes)
    decreases |writes|
  {
    if writes == [] {
      ApplyEmpty(t);
    } else {
      var n := |writes| - 1;
      WrittenIsReplay(t, writes[..n]);
      ReplayLast(t, writes);
      ApplyPut(t, Written(writes[..n]), writes[n].0, writes[n].1);
    }
  }

  /** The batch holds the keys written, each with its last write. */
  lemma {:induction false} WrittenIsLast<K, V>(writes: seq<(K, Entry<V>)>, k: K)
    ensures k in Written(writes) <==> exists i :: 0 <= i < |writes| && writes[i].0 == k
    ensures k in Written(writes) ==>
              exists i :: 0 <= i < |writes| && writes[i] == (k, Written(writes)[k]) && forall j :: i < j < |writes| ==> writes[j].0 != k
    decreases |writes|
  {
    if writes != [] {
      var n := |writes| - 1;
      WrittenIsLast(writes[..n], k);
      if writes[n].0 == k {
        assert writes[n] == (k, Written(writes)[k]);
      } else if k in Written(writes[..n]) {
        var i :| 0 <= i < n && writes[..n][i] == (k, Written(writes[..n])[k]) && forall j :: i < j < n ==> writes[..n][j].0 != k;
        assert writes[i] == (k, Written(writes)[k]);
        forall j | i < j < |writes| ensures writes[j].0 != k {
          assert j < n ==> writes[..n][j] == writes[j];
        }
      }
    }
  }

  /** Running the callback's writes on an empty temporary cache. */
  method RunCallback<K(==), V>(c: Cache<K, V>, writes: seq<(K, Entry<V>)>)
    requires c.entries == map[]
    modifies c`entries
    ensures c.entries == Written(writes)
  {
    var i := 0;
    while i < |writes|
      invariant 0 <= i <= |writes|
      invariant c.entries == Written(writes[..i])
    {
      assert writes[..i + 1][..i] == writes[..i];
      c.Put(writes[i].0, writes[i].1);
      i := i + 1;
    }
    assert writes[..i] == writes;
  }

  /** The copy loop, in whatever order the map yields the keys; the target is quoted meanwhile. */
  method CopyInto<K(==), V>(src: Cache<K, V>, dst: Cache<K, V>)
    requires src != dst && dst.quote == 0
    modifies dst
    ensures dst.entries == old(dst.entries) + src.entries && dst.quote == 0
  {
    dst.quote := dst.quote + 1;
    ghost var before := dst.entries;
    var keys := src.entries.Keys;
    while keys != {}
      invariant keys <= src.entries.Keys && dst.quote == 1
      invariant dst.entries.Keys == before.Keys + (src.entries.Keys - keys)
      invariant forall k :: k in dst.entries ==>
                  dst.entries[k] == if k in src.entries && k !in keys then src.entries[k] else before[k]
      decreases keys
    {
      var k :| k in keys;
      dst.Put(k, src.entries[k]);
      keys := keys - {k};
    }
    dst.quote := dst.quote - 1;
  }

  ghost function CommitTo<K, V>(s: State<K, V>, batch: map<K, Entry<V>>): State<K, V>
    requires WellFormed(s)
  {
    s.(caches := s.caches[s.writeIndex := s.caches[s.writeIndex] + batch])
  }

  lemma CommitAgrees<K, V>(s: State<K, V>, h: History<K, V>, batch: map<K, Entry<V>>) returns (h': History<K, V>)
    requires Agrees(s, h) && s.mode == Running
    ensures Agrees(CommitTo(s, batch), h') && h'.base == h.base && h'.Log() == h.Log() + [batch]
    ensures View(CommitTo(s, batch)) == Apply(View(s), batch)
  {
    StepAgrees(s, h, Commit(batch));
    StepRefines(s, h, Commit(batch));
    AdvanceLog(h, Commit(batch));
    h' := Advance(h, Commit(batch));
  }

  /** The copy, seen from the ring: one commit. */
  method CopyToRing<K(==), V>(mc: MemoryCache<K, V>, c: Cache<K, V>)
    requires mc.Shape() && c !in mc.caches
    modifies mc.caches
    ensures mc.Shape() && mc.Abs() == CommitTo(old(mc.Abs()), c.entries)
  {
    CopyInto(c, mc.caches[mc.writeIndex]);
  }

  method CopyToLedger<K(==), V>(l: Ledger<K, V>, c: Cache<K, V>, due: bool)
    requires l.Valid() && c !in l.cache.caches
    modifies l`history, l.cache, l.cache.caches, l.cache.store
    ensures l.Valid() && l.cache == old(l.cache) && l.cache.caches == old(l.cache.caches)
    ensures l.Table() == Apply(old(l.Table()), c.entries)
    ensures CanTurn(old(l.cache.Abs())) && l.cache.Abs() == CommitTo(Turn(old(l.cache.Abs()), due), c.entries)
    ensures l.history.Log() == old(l.history.Log()) + [c.entries]
  {
    l.TurnIfDue(due);
    ghost var h := CommitAgrees(l.cache.Abs(), l.history, c.entries);
    CopyToRing(l.cache, c);
    l.history := h;
  }

  /** The copy, seen from the callback: its writes are made on the flat map. */
  method CommitWrites<K(==), V>(l: Ledger<K, V>, c: Cache<K, V>, writes: seq<(K, Entry<V>)>, due: bool)
    requires l.Valid() && c !in l.cache.caches && c.entries == Written(writes)
    modifies l`history, l.cache, l.cache.caches, l.cache.store
    ensures l.Valid() && l.cache == old(l.cache) && l.cache.caches == old(l.cache.caches)
    ensures l.Table() == Replay(old(l.Table()), writes)
    ensures CanTurn(old(l.cache.Abs())) && l.cache.Abs() == CommitTo(Turn(old(l.cache.Abs()), due), Written(writes))
    ensures l.history.Log() == old(l.history.Log()) + [Written(writes)]
  {
    WrittenIsReplay(l.Table(), writes);
    CopyToLedger(l, c, due);
  }

  /** Acquires a temporary cache and runs the callback on it. */
  method Fill<K(==), V>(pool: TempPool<K, V>, writes: seq<(K, Entry<V>)>) returns (c: Cache<K, V>)
    requires pool.Valid()
    modifies pool`active, pool.slots
    ensures pool.Valid() && pool.slots == old(pool.slots)
    ensures c !in old(pool.active) && pool.active == old(pool.active) + {c}
    ensures c in pool.slots || fresh(c)
    ensures c.entries == Written(writes)
  {
    c := pool.Acquire();
    RunCallback(c, writes);
  }

  /** releaseTempCache. */
  method GiveBack<K(==), V>(pool: TempPool<K, V>, c: Cache<K, V>)
    requires pool.Valid() && c in pool.active
    modifies pool`active, c
    ensures pool.Valid() && pool.slots == old(pool.slots) && pool.active == old(pool.active) - {c}
  {
    pool.Purge(c);
    pool.Free(c);
  }

  /** No temporary cache is one of the ring's. */
  ghost predicate Apart<K, V>(l: Ledger<K, V>, pool: TempPool<K, V>)
    reads pool, l, l.cache
  {
    forall c :: c in pool.slots ==> c !in l.cache.caches
  }

  /** Filling a temporary cache does not touch the ledger. */
  method FillBeside<K(==), V>(l: Ledger<K, V>, pool: TempPool<K, V>, writes: seq<(K, Entry<V>)>) returns (c: Cache<K, V>)
    requires l.Valid() && pool.Valid() && Apart(l, pool)
    modifies pool`active, pool.slots
    ensures pool.Valid() && pool.slots == old(pool.slots) && pool.active == old(pool.active) + {c}
    ensures c !in old(pool.active) && (c in pool.slots || fresh(c)) && c.entries == Written(writes)
    ensures l.Valid() && l.cache.Abs() == old(l.cache.Abs()) && c !in l.cache.caches
  {
    c := Fill(pool, writes);
    assert l.cache.Abs() == old(l.cache.Abs());
  }

  /** Neither does giving it back. */
  method GiveBackBeside<K(==), V>(l: Ledger<K, V>, pool: TempPool<K, V>, c: Cache<K, V>)
    requires l.Valid() && pool.Valid() && c in pool.active && c !in l.cache.caches
    modifies pool`active, c
    ensures pool.Valid() && pool.slots == old(pool.slots) && pool.active == old(pool.active) - {c}
    ensures l.Valid() && l.cache.Abs() == old(l.cache.Abs())
  {
    GiveBack(pool, c);
    assert l.cache.Abs() == old(l.cache.Abs());
  }

  /**
   BatchUpdate.  The callback is given by the writes it makes and whether it returns without
   error.  On error the flat map is unchanged; otherwise the batch lands as a single commit.
   */
  method Update<K(==), V>(l: Ledger<K, V>, pool: TempPool<K, V>, writes: seq<(K, Entry<V>)>, ok: bool, due: bool)
    requires l.Valid() && pool.Valid() && Apart(l, pool)
    modifies l`history, l.cache, l.cache.caches, l.cache.store, pool, pool.slots
    ensures l.Valid() && pool.Valid() && pool.active == old(pool.active)
    ensures l.Table() == if ok then Replay(old(l.Table()), writes) else old(l.Table())
    ensures l.history.Log() == old(l.history.Log()) + if ok then [Written(writes)] else []
    ensures !ok ==> l.cache.Abs() == old(l.cache.Abs())
    ensures ok ==> CanTurn(old(l.cache.Abs())) && l.cache.Abs() == CommitTo(Turn(old(l.cache.Abs()), due), Written(writes))
  {
    var c := FillBeside(l, pool, writes);
    if ok {
      CommitWrites(l, c, writes, due);
    }
    GiveBackBeside(l, pool, c);
  }
}
