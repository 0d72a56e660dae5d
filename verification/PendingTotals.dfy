/**
 Pending amounts are kept in a table written through the ring; beside it a small LRU cache holds
 the total per account and token.  The cache is filled from the store alone and then adjusted by
 every add and delete.
 */
module PendingTotals {
  import opened Ring
  import opened RingTheorems
  import opened Blocks
  import opened MapSum
  import LedgerStore
  import MemoryCache
  import MergedIteration

  datatype Key = Key(account: Address, hash: Hash)
  datatype Info = Info(source: Address, amount: Balance, typ: Token)

  type Table = map<Key, Info>
  type Batch = map<Key, Entry<Info>>
  type Totals = map<(Address, Token), Balance>

  // ---- The operations ----

  /** UpdateAccountPending: only a total already cached is adjusted. */
  function Adjust(totals: Totals, k: Key, info: Info, add: bool): Totals {
    var at := (k.account, info.typ);
    if at !in totals then totals
    else totals[at := if add then Add(totals[at], info.amount) else Sub(totals[at], info.amount)]
  }

  function AddBatch(k: Key, info: Info): Batch { map[k := Live(info)] }

  /** The entries of one account and token. */
  function Parts(t: Table, account: Address, token: Token): map<Key, int> {
    map k | k in t && k.account == account && t[k].typ == token :: t[k].amount as int
  }

  /** The sum a cached total stands for. */
  ghost function Total(t: Table, account: Address, token: Token): int {
    Sum(Parts(t, account, token))
  }

  /** Every cached total is the sum over the table. */
  ghost predicate Agrees(t: Table, totals: Totals) {
    forall at :: at in totals ==> totals[at] == Total(t, at.0, at.1)
  }

  // ---- Sums ----

  lemma TotalPut(t: Table, k: Key, info: Info, account: Address, token: Token)
    ensures Total(t[k := info], account, token) ==
            Total(t - {k}, account, token) + if k.account == account && info.typ == token then info.amount else 0
  {
    var parts := Parts(t - {k}, account, token);
    if k.account == account && info.typ == token {
      assert Parts(t[k := info], account, token) == parts[k := info.amount as int];
      SumUpdate(parts, k, info.amount);
    } else {
      assert Parts(t[k := info], account, token) == parts;
    }
  }

  lemma TotalRemove(t: Table, k: Key, account: Address, token: Token)
    ensures Total(t - {k}, account, token) ==
            Total(t, account, token) - if k in t && k.account == account && t[k].typ == token then t[k].amount else 0
  {
    assert Parts(t - {k}, account, token) == Parts(t, account, token) - {k};
    SumRemove(Parts(t, account, token), k);
  }

  lemma TotalAtLeast(t: Table, k: Key)
    requires k in t
    ensures t[k].amount <= Total(t, k.account, t[k].typ)
  {
    var parts := Parts(t, k.account, t[k].typ);
    SumAtLeast(parts);
    assert parts[k] == t[k].amount;
  }

  // ---- One operation ----

  /** A cached total takes the new amount without overflowing, and an overwritten entry weighed nothing or is in no cached total. */
  predicate AddKept(t: Table, totals: Totals, k: Key, info: Info) {
    && ((k.account, info.typ) in totals ==> totals[(k.account, info.typ)] + info.amount < TWO_64)
    && (k in t ==> t[k].amount == 0 || (k.account, t[k].typ) !in totals)
  }

  /** AddPending, on any key, keeps every cached total right exactly then. */
  lemma AddAgreesIff(t: Table, totals: Totals, k: Key, info: Info)
    requires Agrees(t, totals)
    ensures Agrees(t[k := info], Adjust(totals, k, info, true)) <==> AddKept(t, totals, k, info)
  {
    var t', totals', at := t[k := info], Adjust(totals, k, info, true), (k.account, info.typ);
    forall x | x in totals
      ensures Total(t', x.0, x.1) ==
              totals[x] + (if x == at then info.amount else 0)
              - if k in t && x == (k.account, t[k].typ) then t[k].amount else 0
    {
      TotalPut(t, k, info, x.0, x.1);
      TotalRemove(t, k, x.0, x.1);
    }
    if k in t {
      TotalAtLeast(t, k);
    }
    if at in totals && totals[at] + info.amount >= TWO_64 {
      assert totals'[at] != Total(t', at.0, at.1);
    } else if k in t && t[k].amount != 0 && (k.account, t[k].typ) in totals {
      assert totals'[(k.account, t[k].typ)] != Total(t', k.account, t[k].typ);
    }
  }

  /** Adding the same entry twice: the cached total counts it twice. */
  lemma OverwriteCountsTwice()
    ensures var k, info := Key(OfKey(1), OfKey(2)), Info(OfKey(3), 5, 0);
            var t, totals := map[k := info], map[(OfKey(1), 0) := 5];
            Agrees(t, totals) && t[k := info] == t && Adjust(totals, k, info, true) == map[(OfKey(1), 0) := 10]
  {
    var k, info := Key(OfKey(1), OfKey(2)), Info(OfKey(3), 5, 0);
    var none: Table := map[];
    TotalPut(none, k, info, OfKey(1), 0);
    assert Parts(none, OfKey(1), 0) == map[];
    assert none - {k} == none && none[k := info] == map[k := info];
  }

  /** DeletePending of an entry in the table keeps every cached total right. */
  lemma DeleteAgrees(t: Table, totals: Totals, k: Key)
    requires Agrees(t, totals) && k in t
    ensures Agrees(t - {k}, Adjust(totals, k, t[k], false))
  {
    forall x | x in totals
      ensures Total(t - {k}, x.0, x.1) == Adjust(totals, k, t[k], false)[x]
    {
      TotalRemove(t, k, x.0, x.1);
      TotalAtLeast(t, k);
    }
  }

  /** What an entry, if any, contributes to a token's total. */
  function Weight(e: Option<Info>, token: Token): int {
    if e.Some? && e.value.typ == token then e.value.amount else 0
  }

  /** For each overlaid key of the account, what the overlay adds to the total or takes from it. */
  ghost function Net(t: Table, m: Batch, account: Address, token: Token): map<Key, int> {
    map k | k in m && k.account == account :: Weight(Resolve(m, t, k), token) - Weight(Lookup(t, k), token)
  }

  /** The total of an overlaid table: the total underneath, and the net of the overlay. */
  lemma {:induction false} TotalOfOverlay(t: Table, m: Batch, account: Address, token: Token)
    ensures Total(Apply(t, m), account, token) == Total(t, account, token) + Sum(Net(t, m, account, token))
    decreases |m|
  {
    if m == map[] {
      ApplyEmpty(t);
      assert Net(t, m, account, token) == map[];
    } else {
      var k :| k in m;
      var rest := m - {k};
      Smaller(m, k);
      TotalOfOverlay(t, rest, account, token);
      assert m == rest[k := m[k]];
      ApplyPut(t, rest, k, m[k]);
      TotalOfPut(Apply(t, rest), k, m[k], account, token);
      ApplyLookup(t, rest, k);
      NetStep(t, m, k, account, token);
    }
  }

  lemma TotalOfPut(t: Table, k: Key, e: Entry<Info>, account: Address, token: Token)
    ensures Total(if e.Live? then t[k := e.value] else t - {k}, account, token) ==
            Total(t, account, token) +
            if k.account == account then Weight(if e.Live? then Some(e.value) else None, token) - Weight(Lookup(t, k), token)
            else 0
  {
    TotalRemove(t, k, account, token);
    if e.Live? {
      TotalPut(t, k, e.value, account, token);
    }
  }

  lemma NetStep(t: Table, m: Batch, k: Key, account: Address, token: Token)
    requires k in m
    ensures Sum(Net(t, m, account, token)) ==
            Sum(Net(t, m - {k}, account, token)) +
            if k.account == account then Weight(Resolve(m, t, k), token) - Weight(Lookup(t, k), token) else 0
  {
    assert Net(t, m - {k}, account, token) == Net(t, m, account, token) - {k};
    SumRemove(Net(t, m, account, token), k);
  }

  /** The fill reads the store only: it is right exactly when the ring's entries of the account net to nothing. */
  lemma FillIsRightIff(s: State<Key, Info>, account: Address, token: Token)
    requires WellFormed(s)
    ensures Total(s.store, account, token) == Total(View(s), account, token) <==>
            Sum(Net(s.store, Window(s, s.writeIndex), account, token)) == 0
  {
    TotalOfOverlay(s.store, Window(s, s.writeIndex), account, token);
  }

  /** If the ring holds no entry of the account, the store alone gives its totals. */
  lemma StoreTotal(s: State<Key, Info>, account: Address, token: Token)
    requires WellFormed(s)
    requires forall k :: k in Window(s, s.writeIndex) ==> k.account != account
    ensures Sum(Net(s.store, Window(s, s.writeIndex), account, token)) == 0
    ensures Total(s.store, account, token) == Total(View(s), account, token)
  {
    assert Net(s.store, Window(s, s.writeIndex), account, token) == map[];
    FillIsRightIff(s, account, token);
  }

  /** One unflushed entry, added, overwritten or deleted: the fill is right exactly when its weight did not change. */
  lemma FillBeforeFlushIff(s: State<Key, Info>, k: Key, token: Token)
    requires WellFormed(s) && k in Window(s, s.writeIndex)
    requires forall x :: x in Window(s, s.writeIndex) && x.account == k.account ==> x == k
    ensures Total(s.store, k.account, token) == Total(View(s), k.account, token) <==>
            Weight(Lookup(View(s), k), token) == Weight(Lookup(s.store, k), token)
  {
    var m := Window(s, s.writeIndex);
    FillIsRightIff(s, k.account, token);
    NetStep(s.store, m, k, k.account, token);
    assert Net(s.store, m - {k}, k.account, token) == map[];
    ApplyLookup(s.store, m, k);
  }

  /** A stored entry deleted but not yet flushed is still counted by a fill. */
  lemma FillCountsDeleted()
    ensures var k, info := Key(OfKey(1), OfKey(2)), Info(OfKey(3), 5, 0);
            var s := Ring.Step(Initial(map[k := info]), Commit(map[k := Deleted]));
            View(s) == map[] && FillSum(s.store, [k], OfKey(1), 0) == 5
  {
    var k, info := Key(OfKey(1), OfKey(2)), Info(OfKey(3), 5, 0);
    var s0: State<Key, Info> := Initial(map[k := info]);
    var s := Ring.Step(s0, Commit(map[k := Deleted]));
    assert Window(s, 0) == map[] && Window(s, 1) == Window(s, 0) + s.caches[1];
    assert s.caches[1] == map[k := Deleted] && Window(s, 1) == map[k := Deleted];
    ApplyOne(s.store, k, Deleted);
    assert [k][..0] == [];
  }

  // ---- Filling ----

  /** The accumulation in PendingAmount: the store's entries in iteration order, added one by one. */
  function FillSum(store: Table, order: seq<Key>, account: Address, token: Token): Balance
    requires forall k :: k in order ==> k in store
  {
    if order == [] then 0
    else
      var k := order[|order| - 1];
      var rest := FillSum(store, order[..|order| - 1], account, token);
      if k.account == account && store[k].typ == token then Add(rest, store[k].amount) else rest
  }

  /** If the sum fits, the accumulation is the sum, in any order. */
  lemma {:induction false} FillIsTotal(store: Table, order: seq<Key>, account: Address, token: Token)
    requires forall k :: k in order ==> k in store
    requires MergedIteration.NoRepeats(order)
    requires Total(MergedIteration.Among(store, order), account, token) < TWO_64
    ensures FillSum(store, order, account, token) == Total(MergedIteration.Among(store, order), account, token)
    decreases |order|
  {
    if order == [] {
      assert Parts(MergedIteration.Among(store, order), account, token) == map[];
    } else {
      var n := |order| - 1;
      var init, k := order[..n], order[n];
      MergedIteration.AmongStep(store, order);
      TotalPut(MergedIteration.Among(store, init), k, store[k], account, token);
      FillIsTotal(store, init, account, token);
    }
  }

  lemma FillReadsStore(store: Table, order: seq<Key>, account: Address, token: Token)
    requires MergedIteration.Enumerates(order, store) && Total(store, account, token) < TWO_64
    ensures FillSum(store, order, account, token) == Total(store, account, token)
  {
    assert MergedIteration.Among(store, order) == store;
    FillIsTotal(store, order, account, token);
  }

  // ---- Runs ----

  datatype Event =
    | Maintain(action: Action<Key, Info>)          // rotation, flush phase, close, rebuild
    | AddEntry(key: Key, info: Info)
    | DeleteEntry(key: Key)
    | AbortedAdd(key: Key, info: Info)             // in a batch whose callback then fails
    | AbortedDelete(key: Key)
    | Fill(account: Address, token: Token, order: seq<Key>)  // fills the cache from the store
    | Evict(account: Address, token: Token)

  /** The ring steps taken so far, and the cached totals. */
  datatype System = System(run: seq<Action<Key, Info>>, totals: Totals)

  ghost predicate Ready(store: Table, sys: System) {
    ValidRun(Initial(store), sys.run)
  }

  ghost function RingOf(store: Table, sys: System): State<Key, Info>
    requires Ready(store, sys)
  {
    Exec(Initial(store), sys.run)
  }

  ghost function TableOf(store: Table, sys: System): Table
    requires Ready(store, sys)
  {
    View(RingOf(store, sys))
  }

  /** What may happen: each add and delete in a batch of its own; a fill whose sum fits in 64 bits. */
  ghost predicate Allowed(store: Table, sys: System, e: Event)
    requires Ready(store, sys)
  {
    var s := RingOf(store, sys);
    match e
    case Maintain(a) => !a.Commit? && Enabled(s, a)
    case AddEntry(_, _) => s.mode == Running
    case DeleteEntry(_) => s.mode == Running
    case AbortedAdd(_, _) => true
    case AbortedDelete(_) => true
    case Fill(a, token, order) => MergedIteration.Enumerates(order, s.store) && Total(s.store, a, token) < TWO_64
    case Evict(_, _) => true
  }

  /** DeletePending reads the entry through ring and store; a missing entry is not an error. */
  ghost function Step(store: Table, sys: System, e: Event): System
    requires Ready(store, sys) && Allowed(store, sys, e)
  {
    var s := RingOf(store, sys);
    match e
    case Maintain(a) => sys.(run := sys.run + [a])
    case AddEntry(k, info) => System(sys.run + [Commit(AddBatch(k, info))], Adjust(sys.totals, k, info, true))
    case DeleteEntry(k) =>
      (match Read(s, map[], k)
       case None => sys
       case Some(info) => System(sys.run + [Commit(map[k := Deleted])], Adjust(sys.totals, k, info, false)))
    case AbortedAdd(k, info) => sys.(totals := Adjust(sys.totals, k, info, true))
    case AbortedDelete(k) =>
      (match Read(s, map[], k)
       case None => sys
       case Some(info) => sys.(totals := Adjust(sys.totals, k, info, false)))
    case Fill(a, token, order) =>
      if (a, token) in sys.totals then sys
      else sys.(totals := sys.totals[(a, token) := FillSum(s.store, order, a, token)])
    case Evict(a, token) => sys.(totals := sys.totals - {(a, token)})
  }

  /** The entry weighs nothing, or its total is not cached. */
  predicate NotCounted(totals: Totals, k: Key, info: Info) {
    info.amount == 0 || (k.account, info.typ) !in totals
  }

  /** Exactly when an event keeps the cached totals right. */
  ghost predicate Kept(s: State<Key, Info>, totals: Totals, e: Event)
    requires WellFormed(s)
  {
    match e
    case AddEntry(k, info) => AddKept(View(s), totals, k, info)
    case AbortedAdd(k, info) => NotCounted(totals, k, info)
    case AbortedDelete(k) => k in View(s) ==> NotCounted(totals, k, View(s)[k])
    case Fill(a, token, _) =>
      (a, token) in totals || Sum(Net(s.store, Window(s, s.writeIndex), a, token)) == 0
    case _ => true
  }

  /** An adjustment whose batch is dropped: the totals move away from a table that stays. */
  lemma AbortedAgreesIff(t: Table, totals: Totals, k: Key, info: Info, add: bool)
    requires Agrees(t, totals) && (!add ==> k in t && t[k] == info)
    ensures Agrees(t, Adjust(totals, k, info, add)) <==> NotCounted(totals, k, info)
  {
    var at := (k.account, info.typ);
    if !add {
      TotalAtLeast(t, k);
    }
    if !NotCounted(totals, k, info) {
      assert Adjust(totals, k, info, add)[at] != totals[at];
    }
  }

  /** A failed batch that added an entry, and one that deleted it: the table stays, and the cached total moves. */
  lemma AbortedMovesTotal()
    ensures var k, info := Key(OfKey(1), OfKey(2)), Info(OfKey(3), 5, 0);
            var none: Table, at := map[], (OfKey(1), 0);
            && Agrees(none, map[at := 0]) && Adjust(map[at := 0], k, info, true) == map[at := 5]
            && !Agrees(none, map[at := 5])
            && Agrees(none[k := info], map[at := 5]) && Adjust(map[at := 5], k, info, false) == map[at := 0]
            && !Agrees(none[k := info], map[at := 0])
  {
    var k, info := Key(OfKey(1), OfKey(2)), Info(OfKey(3), 5, 0);
    var none: Table := map[];
    assert Parts(none, OfKey(1), 0) == map[];
    TotalPut(none, k, info, OfKey(1), 0);
    assert none - {k} == none;
    AbortedAgreesIff(none, map[(OfKey(1), 0) := 0], k, info, true);
    AbortedAgreesIff(none[k := info], map[(OfKey(1), 0) := 5], k, info, false);
  }

  lemma AddStep(store: Table, sys: System, k: Key, info: Info)
    requires Ready(store, sys) && Allowed(store, sys, AddEntry(k, info)) && Agrees(TableOf(store, sys), sys.totals)
    ensures var sys' := Step(store, sys, AddEntry(k, info));
            Ready(store, sys') &&
            (Agrees(TableOf(store, sys'), sys'.totals) <==> AddKept(TableOf(store, sys), sys.totals, k, info))
  {
    var t := TableOf(store, sys);
    RunExtended(store, sys.run, Commit(AddBatch(k, info)));
    ApplyOne(t, k, Live(info));
    AddAgreesIff(t, sys.totals, k, info);
  }

  lemma DeleteStep(store: Table, sys: System, k: Key)
    requires Ready(store, sys) && Allowed(store, sys, DeleteEntry(k)) && Agrees(TableOf(store, sys), sys.totals)
    ensures var sys' := Step(store, sys, DeleteEntry(k));
            Ready(store, sys') && Agrees(TableOf(store, sys'), sys'.totals)
  {
    var t := TableOf(store, sys);
    ReadIsView(RingOf(store, sys), map[], k);
    ApplyEmpty(t);
    if k in t {
      RunExtended(store, sys.run, Commit(map[k := Deleted]));
      ApplyOne(t, k, Deleted);
      DeleteAgrees(t, sys.totals, k);
    }
  }

  lemma AbortedDeleteStep(store: Table, sys: System, k: Key)
    requires Ready(store, sys) && Agrees(TableOf(store, sys), sys.totals)
    ensures var t, sys' := TableOf(store, sys), Step(store, sys, AbortedDelete(k));
            Agrees(t, sys'.totals) <==> (k in t ==> NotCounted(sys.totals, k, t[k]))
  {
    var t := TableOf(store, sys);
    ReadIsView(RingOf(store, sys), map[], k);
    ApplyEmpty(t);
    if k in t {
      AbortedAgreesIff(t, sys.totals, k, t[k], false);
    }
  }

  lemma FillStep(store: Table, sys: System, a: Address, token: Token, order: seq<Key>)
    requires Ready(store, sys) && Allowed(store, sys, Fill(a, token, order))
    requires Agrees(TableOf(store, sys), sys.totals) && (a, token) !in sys.totals
    ensures var s, sys' := RingOf(store, sys), Step(store, sys, Fill(a, token, order));
            Agrees(View(s), sys'.totals) <==> Sum(Net(s.store, Window(s, s.writeIndex), a, token)) == 0
  {
    var s := RingOf(store, sys);
    FillReadsStore(s.store, order, a, token);
    FillIsRightIff(s, a, token);
    var totals' := sys.totals[(a, token) := FillSum(s.store, order, a, token)];
    if Total(s.store, a, token) != Total(View(s), a, token) {
      assert totals'[(a, token)] != Total(View(s), a, token);
    }
  }

  /** An evicted total is forgotten: the next fill sums the store afresh, and no other total changes. */
  lemma EvictThenFill(store: Table, sys: System, a: Address, token: Token, order: seq<Key>)
    requires Ready(store, sys) && Allowed(store, sys, Fill(a, token, order))
    ensures var sys' := Step(store, Step(store, sys, Evict(a, token)), Fill(a, token, order));
            && sys'.run == sys.run
            && (a, token) in sys'.totals && sys'.totals[(a, token)] == Total(RingOf(store, sys).store, a, token)
            && sys'.totals - {(a, token)} == sys.totals - {(a, token)}
  {
    FillReadsStore(RingOf(store, sys).store, order, a, token);
  }

  /** One event leaves every cached total equal to the sum over the merged table if and only if it is Kept. */
  lemma StepAgreesIff(store: Table, sys: System, e: Event)
    requires Ready(store, sys) && Allowed(store, sys, e) && Agrees(TableOf(store, sys), sys.totals)
    ensures Ready(store, Step(store, sys, e))
    ensures Agrees(TableOf(store, Step(store, sys, e)), Step(store, sys, e).totals) <==> Kept(RingOf(store, sys), sys.totals, e)
  {
    match e
    case Maintain(a) => RunExtended(store, sys.run, a);
    case AddEntry(k, info) => AddStep(store, sys, k, info);
    case DeleteEntry(k) => DeleteStep(store, sys, k);
    case AbortedAdd(k, info) => AbortedAgreesIff(TableOf(store, sys), sys.totals, k, info, true);
    case AbortedDelete(k) => AbortedDeleteStep(store, sys, k);
    case Fill(a, token, order) =>
      if (a, token) !in sys.totals {
        FillStep(store, sys, a, token, order);
      }
    case Evict(_, _) =>
  }

  /** No event makes the ring's run impossible. */
  lemma StepReady(store: Table, sys: System, e: Event)
    requires Ready(store, sys) && Allowed(store, sys, e)
    ensures Ready(store, Step(store, sys, e))
  {
    match e
    case Maintain(a) => RunExtended(store, sys.run, a);
    case AddEntry(k, info) => RunExtended(store, sys.run, Commit(AddBatch(k, info)));
    case DeleteEntry(k) =>
      if Read(RingOf(store, sys), map[], k).Some? {
        RunExtended(store, sys.run, Commit(map[k := Deleted]));
      }
    case _ =>
  }

  ghost predicate ValidEvents(store: Table, events: seq<Event>)
    decreases |events|, 0
  {
    events == [] ||
    var init, last := events[..|events| - 1], events[|events| - 1];
    && ValidEvents(store, init)
    && Allowed(store, After(store, init), last)
  }

  ghost function After(store: Table, events: seq<Event>): (sys: System)
    requires ValidEvents(store, events)
    ensures Ready(store, sys)
    decreases |events|, 1
  {
    if events == [] then System([], map[])
    else
      StepReady(store, After(store, events[..|events| - 1]), events[|events| - 1]);
      Step(store, After(store, events[..|events| - 1]), events[|events| - 1])
  }

  /** At every moment of the run every cached total is the sum over the table, read through ring and store. */
  ghost predicate AlwaysAgrees(store: Table, events: seq<Event>)
    requires ValidEvents(store, events)
    decreases |events|
  {
    && Agrees(TableOf(store, After(store, events)), After(store, events).totals)
    && (events != [] ==> AlwaysAgrees(store, events[..|events| - 1]))
  }

  ghost predicate AllKept(store: Table, events: seq<Event>)
    requires ValidEvents(store, events)
    decreases |events|
  {
    events == [] ||
    var before, last := After(store, events[..|events| - 1]), events[|events| - 1];
    AllKept(store, events[..|events| - 1]) && Kept(RingOf(store, before), before.totals, last)
  }

  /**
   Cached totals against the table: over any run of adds and deletes, committed or aborted, fills, evictions
   and ring steps, every cached total is right at every moment if and only if every event is Kept.
   */
  lemma {:induction false} TotalsAgreeIff(store: Table, events: seq<Event>)
    requires ValidEvents(store, events)
    ensures AlwaysAgrees(store, events) <==> AllKept(store, events)
    ensures AlwaysAgrees(store, events) ==> Agrees(TableOf(store, After(store, events)), After(store, events).totals)
    decreases |events|
  {
    if events != [] {
      var init := events[..|events| - 1];
      TotalsAgreeIff(store, init);
      if AlwaysAgrees(store, init) {
        StepAgreesIff(store, After(store, init), events[|events| - 1]);
      }
    }
  }

  /** Adds on fresh keys whose totals fit, no aborted batches, and fills that find no entry of the account in the ring. */
  ghost predicate Careful(s: State<Key, Info>, e: Event)
    requires WellFormed(s)
  {
    match e
    case AddEntry(k, info) => k !in View(s) && Total(View(s), k.account, info.typ) + info.amount < TWO_64
    case AbortedAdd(_, _) => false
    case AbortedDelete(_) => false
    case Fill(a, _, _) => forall k :: k in Window(s, s.writeIndex) ==> k.account != a
    case _ => true
  }

  ghost predicate AllCareful(store: Table, events: seq<Event>)
    requires ValidEvents(store, events)
    decreases |events|
  {
    events == [] ||
    (AllCareful(store, events[..|events| - 1]) &&
     Careful(RingOf(store, After(store, events[..|events| - 1])), events[|events| - 1]))
  }

  lemma CarefulIsKept(s: State<Key, Info>, totals: Totals, e: Event)
    requires WellFormed(s) && Careful(s, e) && Agrees(View(s), totals)
    ensures Kept(s, totals, e)
  {
    if e.Fill? {
      StoreTotal(s, e.account, e.token);
    }
  }

  /** So along careful runs every cached total is right at every moment. */
  lemma {:induction false} TotalsAlwaysAgree(store: Table, events: seq<Event>)
    requires ValidEvents(store, events) && AllCareful(store, events)
    ensures AlwaysAgrees(store, events)
    decreases |events|
  {
    TotalsAgreeIff(store, events);
    if events != [] {
      var init := events[..|events| - 1];
      TotalsAlwaysAgree(store, init);
      TotalsAgreeIff(store, init);
      CarefulIsKept(RingOf(store, After(store, init)), After(store, init).totals, events[|events| - 1]);
    }
  }

  // ---- The cache object ----

  class TotalsCache {
    var accountPending: Totals

    method AddAccountPending(account: Address, token: Token, amount: Balance)
      modifies this
      ensures accountPending == old(accountPending)[(account, token) := amount]
    {
      accountPending := accountPending[(account, token) := amount];
    }

    method UpdateAccountPending(k: Key, info: Info, add: bool)
      modifies this
      ensures accountPending == Adjust(old(accountPending), k, info, add)
    {
      if (k.account, info.typ) in accountPending {
        var amount := accountPending[(k.account, info.typ)];
        if add {
          amount := Add(amount, info.amount);
        } else {
          amount := Sub(amount, info.amount);
        }
        accountPending := accountPending[(k.account, info.typ) := amount];
      }
    }

    /** PendingAmount: the cached total, or a fresh sum over the store that is then cached. */
    method PendingAmount(store: Table, order: seq<Key>, account: Address, token: Token) returns (amount: Balance)
      requires MergedIteration.Enumerates(order, store)
      modifies this
      ensures (account, token) in old(accountPending) ==>
                amount == old(accountPending)[(account, token)] && accountPending == old(accountPending)
      ensures (account, token) !in old(accountPending) ==>
                amount == FillSum(store, order, account, token) && accountPending == old(accountPending)[(account, token) := amount]
      ensures (account, token) !in old(accountPending) && Total(store, account, token) < TWO_64 ==>
                amount == Total(store, account, token)
    {
      if (account, token) in accountPending {
        return accountPending[(account, token)];
      }
      amount := 0;
      var n := 0;
      while n < |order|
        invariant 0 <= n <= |order|
        invariant amount == FillSum(store, order[..n], account, token)
      {
        assert order[..n + 1][..n] == order[..n];
        var k := order[n];
        if k.account == account && store[k].typ == token {
          amount := Add(amount, store[k].amount);
        }
        n := n + 1;
      }
      assert order[..n] == order;
      if Total(store, account, token) < TWO_64 {
        FillReadsStore(store, order, account, token);
      }
      AddAccountPending(account, token, amount);
    }
  }

  /** AddPending: the entry goes into the batch, and a cached total grows with it. */
  method AddPending(rcache: TotalsCache, k: Key, info: Info, batch: MemoryCache.Cache<Key, Info>)
    modifies batch`entries, rcache
    ensures batch.entries == old(batch.entries)[k := Live(info)]
    ensures rcache.accountPending == Adjust(old(rcache.accountPending), k, info, true)
  {
    batch.Put(k, Live(info));
    rcache.UpdateAccountPending(k, info, true);
  }

  /** DeletePending looks the entry up outside the batch; an absent entry is not an error. */
  method DeletePending(l: LedgerStore.Ledger<Key, Info>, rcache: TotalsCache, k: Key, batch: MemoryCache.Cache<Key, Info>)
    requires l.cache.Shape() && batch !in l.cache.caches
    modifies batch`entries, rcache
    ensures var t := old(l.Table());
            && batch.entries == (if k in t then old(batch.entries)[k := Deleted] else old(batch.entries))
            && rcache.accountPending ==
               if k in t then Adjust(old(rcache.accountPending), k, t[k], false) else old(rcache.accountPending)
  {
    ApplyEmpty(l.Table());
    var info := l.GetObject(k, map[]);
    if info.Some? {
      batch.Put(k, Deleted);
      rcache.UpdateAccountPending(k, info.value, false);
    }
  }
}
