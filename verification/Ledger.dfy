/**
 The ledger's view of the storage layer: Put, Delete, GetObject and Flush on one flat map.
 */
module LedgerStore {
  import opened Ring
  import opened RingHistory
  import opened RingTheorems
  import opened MemoryCache

  /** A ring that GetCache can be called on. */
  ghost predicate CanTurn<K, V>(s: State<K, V>) {
    WellFormed(s) && s.readIndex != s.writeIndex
  }

  class Ledger<K(==), V> {
    var cache: MemoryCache<K, V>
    ghost var history: History<K, V>

    ghost predicate Valid()
      reads this, cache, cache.caches, cache.store
    {
      cache.Shape() && !cache.flushing && Agrees(cache.Abs(), history)
    }

    /** The flat map the ledger stands for. */
    ghost function Table(): map<K, V>
      requires cache.Shape()
      reads this, cache, cache.caches, cache.store
    {
      View(cache.Abs())
    }

    constructor (store: Store<K, V>)
      ensures Valid() && Table() == store.table && history.base == store.table && history.Log() == []
    {
      cache := new MemoryCache<K, V>(store);
      history := InitialHistory(store.table);
      new;
      InitialAgrees(store.table);
      ViewIsLog(cache.Abs(), history);
      ApplyEmpty(store.table);
    }

    /** A write: the cache is turned if the interval has passed, then one entry is set. */
    method Write(k: K, e: Entry<V>, due: bool)
      requires Valid()
      modifies this`history, cache, cache.caches, cache.store
      ensures Valid() && cache == old(cache)
      ensures Table() == if e.Live? then old(Table())[k := e.value] else old(Table()) - {k}
      ensures CanTurn(old(cache.Abs())) && cache.Abs() == PutOne(Turn(old(cache.Abs()), due), k, e)
      ensures history.base == old(history.base) && history.Log() == old(history.Log()) + [map[k := e]]
    {
      TurnIfDue(due);
      ghost var h := PutOneAgrees(cache.Abs(), history, k, e);
      cache.Put(k, e);
      history := h;
    }

    /** GetCache, seen from the flat map: nothing changes. */
    method TurnIfDue(due: bool)
      requires Valid()
      modifies this`history, cache, cache.caches, cache.store
      ensures Valid() && cache == old(cache) && cache.caches == old(cache.caches) && cache.store == old(cache.store)
      ensures Table() == old(Table())
      ensures CanTurn(old(cache.Abs())) && cache.Abs() == Turn(old(cache.Abs()), due)
      ensures history.base == old(history.base) && history.Log() == old(history.Log())
    {
      ghost var h := TurnAgrees(cache.Abs(), history, due);
      var _ := cache.GetCache(due);
      history := h;
    }

    method Put(k: K, v: V, due: bool)
      requires Valid()
      modifies this`history, cache, cache.caches, cache.store
      ensures Valid() && Table() == old(Table())[k := v]
      ensures CanTurn(old(cache.Abs())) && cache.Abs() == PutOne(Turn(old(cache.Abs()), due), k, Live(v))
    {
      Write(k, Live(v), due);
    }

    method Delete(k: K, due: bool)
      requires Valid()
      modifies this`history, cache, cache.caches, cache.store
      ensures Valid() && Table() == old(Table()) - {k}
      ensures CanTurn(old(cache.Abs())) && cache.Abs() == PutOne(Turn(old(cache.Abs()), due), k, Deleted)
    {
      Write(k, Deleted, due);
    }

    /** GetObject: the caller's batch, then the ring, then the store. */
    method GetObject(k: K, batch: map<K, Entry<V>>) returns (r: Option<V>)
      requires cache.Shape()
      ensures r == Lookup(Apply(Table(), batch), k)
    {
      ReadIsView(cache.Abs(), batch, k);
      ScanFindsNewest(cache.Abs(), cache.writeIndex, k);
      if k in batch {
        return if batch[k].Live? then Some(batch[k].value) else None;
      }
      var p := cache.Get(k);
      match p
      case Hit(v) => r := Some(v);
      case Tombstone => r := None;
      case Miss => r := if k in cache.store.table then Some(cache.store.table[k]) else None;
    }

    /** Ledger.Flush: afterwards the store alone is the flat map. */
    method Flush()
      requires Valid()
      modifies this`history, cache, cache.caches, cache.store
      ensures Valid() && Table() == old(Table()) == cache.store.table
      ensures cache.writeIndex == 1 && cache.readIndex == 0
      ensures history.base == old(history.base) && history.Log() == old(history.Log())
    {
      ghost var s := cache.Abs();
      AgreesGivesInvariant(s, history);
      ghost var h := RebuildAgrees(s, history);
      SameView(s, history, CloseAll(s).(writeIndex := 1, readIndex := 0), h);
      cache.Rebuild();
      history := h;
    }
  }
}
