/**
 The confirmed blocks and the two tables kept beside them: child (parent hash -> the block after
 it) and link (send hash -> the block that received it).  All three are written through batches
 into the ring and read through batch, ring and store.
 */
module BlockIndex {
  import opened Ring
  import opened RingTheorems
  import opened Blocks
  import opened MemoryCache
  import opened LedgerStore

  datatype Key = BlockKey(hash: Hash) | ChildKey(hash: Hash) | LinkKey(hash: Hash)
  datatype Value = BlockValue(block: StateBlock) | HashValue(hash: Hash)

  type Table = map<Key, Value>
  type Batch = map<Key, Entry<Value>>
  type Storage = State<Key, Value>

  /** The hashes of the genesis blocks, and of the unconfirmed blocks, which live in a table of their own. */
  datatype Context = Context(genesis: set<Hash>, unconfirmed: set<Hash>)

  /** The block is entered in the child table. */
  predicate Indexed(genesis: set<Hash>, b: StateBlock) {
    OfBlock(b) !in genesis && !b.IsOpen()
  }

  // ---- The operations, on the batch under construction ----

  function SetBlockChild(s: Storage, c: Context, b: StateBlock, batch: Batch): Option<Batch>
    requires WellFormed(s)
  {
    if !Indexed(c.genesis, b) then Some(batch)
    else if b.Parent() !in c.unconfirmed && Read(s, map[], BlockKey(b.Parent())) == None then None  // no parent
    else if Read(s, batch, ChildKey(b.Parent())) != None then None                                  // parent used
    else Some(batch[ChildKey(b.Parent()) := Live(HashValue(OfBlock(b)))])
  }

  function SetBlockLink(b: StateBlock, batch: Batch): Batch {
    if b.typ in {Open, Receive, ContractReward}
    then batch[LinkKey(b.link) := Live(HashValue(OfBlock(b)))]
    else batch
  }

  /** `answered`: a private block has its receive response. */
  function SetStateBlock(s: Storage, c: Context, b: StateBlock, answered: bool, batch: Batch): Option<Batch>
    requires WellFormed(s)
  {
    if !answered then None
    else
      match SetBlockChild(s, c, b, batch)
      case None => None
      case Some(m) => Some(SetBlockLink(b, m)[BlockKey(OfBlock(b)) := Live(BlockValue(b))])
  }

  function DeleteStateBlock(s: Storage, hash: Hash, batch: Batch): Option<Batch>
    requires WellFormed(s)
  {
    match Read(s, map[], BlockKey(hash))
    case None => None
    case Some(v) =>
      if v.HashValue? then None  // not the value of a block key
      else
        var b := v.block;
        var m := batch[BlockKey(hash) := Deleted];
        var m' := if b.Parent() == ZeroHash then m else m[ChildKey(b.Parent()) := Deleted];
        Some(m'[LinkKey(b.link) := Deleted])
  }

  // ---- Whole batches ----

  /** What one BatchUpdate may do: add blocks, or delete blocks. */
  datatype Op = AddBlocks(blocks: seq<(StateBlock, bool)>, context: Context) | DeleteBlocks(hashes: seq<Hash>)

  function AddAll(s: Storage, c: Context, blocks: seq<(StateBlock, bool)>): Option<Batch>
    requires WellFormed(s)
  {
    if blocks == [] then Some(map[])
    else
      match AddAll(s, c, blocks[..|blocks| - 1])
      case None => None
      case Some(m) => SetStateBlock(s, c, blocks[|blocks| - 1].0, blocks[|blocks| - 1].1, m)
  }

  function DeleteAll(s: Storage, hashes: seq<Hash>): Option<Batch>
    requires WellFormed(s)
  {
    if hashes == [] then Some(map[])
    else
      match DeleteAll(s, hashes[..|hashes| - 1])
      case None => None
      case Some(m) => DeleteStateBlock(s, hashes[|hashes| - 1], m)
  }

  /** The batch an operation commits, or None if its callback fails. */
  function OpBatch(s: Storage, op: Op): Option<Batch>
    requires WellFormed(s)
  {
    match op
    case AddBlocks(blocks, c) => AddAll(s, c, blocks)
    case DeleteBlocks(hashes) => DeleteAll(s, hashes)
  }

  // ---- The invariant ----

  predicate Confirmed(t: Table, b: StateBlock) {
    BlockKey(OfBlock(b)) in t
  }

  /** Block entries are stored under their own hash, index entries hold hashes. */
  ghost predicate WellTyped(t: Table) {
    && (forall h :: BlockKey(h) in t ==> h.OfBlock? && t[BlockKey(h)] == BlockValue(h.block))
    && (forall h :: ChildKey(h) in t ==> t[ChildKey(h)].HashValue?)
  }

  /** The child entry of p is right: it names a confirmed, indexed block whose previous is p. */
  ghost predicate EntryRight(t: Table, genesis: set<Hash>, p: Hash) {
    ChildKey(p) in t ==>
      && t[ChildKey(p)].HashValue? && t[ChildKey(p)].hash.OfBlock?
      && var b := t[ChildKey(p)].hash.block;
         Confirmed(t, b) && Indexed(genesis, b) && b.previous == p
  }

  /** Block b, if it is confirmed and indexed, is the child recorded for its previous. */
  ghost predicate BlockEntered(t: Table, genesis: set<Hash>, b: StateBlock) {
    Confirmed(t, b) && Indexed(genesis, b) ==>
      ChildKey(b.previous) in t && t[ChildKey(b.previous)] == HashValue(OfBlock(b))
  }

  /** The child table is the inverse of the previous relation on confirmed, indexed blocks. */
  ghost predicate IndexExact(t: Table, genesis: set<Hash>) {
    && WellTyped(t)
    && (forall p :: EntryRight(t, genesis, p))
    && (forall b :: BlockEntered(t, genesis, b))
  }

  /** In such a table no block has two children. */
  lemma NoForks(t: Table, genesis: set<Hash>, b: StateBlock, b': StateBlock)
    requires IndexExact(t, genesis)
    requires Confirmed(t, b) && Confirmed(t, b') && Indexed(genesis, b) && Indexed(genesis, b')
    requires b.previous == b'.previous
    ensures b == b'
  {
    assert BlockEntered(t, genesis, b) && BlockEntered(t, genesis, b');
  }

  // ---- Adding ----

  /** The flat map after adding b. */
  ghost function Added(t: Table, genesis: set<Hash>, b: StateBlock): Table {
    var t1 := if Indexed(genesis, b) then t[ChildKey(b.previous) := HashValue(OfBlock(b))] else t;
    var t2 := if b.typ in {Open, Receive, ContractReward} then t1[LinkKey(b.link) := HashValue(OfBlock(b))] else t1;
    t2[BlockKey(OfBlock(b)) := BlockValue(b)]
  }

  lemma SetStateBlockAdds(s: Storage, c: Context, b: StateBlock, answered: bool, batch: Batch)
    requires WellFormed(s) && SetStateBlock(s, c, b, answered, batch).Some?
    ensures var t, t' := Apply(View(s), batch), Apply(View(s), SetStateBlock(s, c, b, answered, batch).value);
            && t' == Added(t, c.genesis, b)
            && (Indexed(c.genesis, b) ==> ChildKey(b.previous) !in t)
  {
    var m1 := SetBlockChild(s, c, b, batch).value;
    var m2 := SetBlockLink(b, m1);
    ReadIsView(s, batch, ChildKey(b.Parent()));
    ApplyPut(View(s), batch, ChildKey(b.Parent()), Live(HashValue(OfBlock(b))));
    ApplyPut(View(s), m1, LinkKey(b.link), Live(HashValue(OfBlock(b))));
    ApplyPut(View(s), m2, BlockKey(OfBlock(b)), Live(BlockValue(b)));
  }

  /**
   setStateBlock succeeds exactly when the block is answered and, if it belongs in the child table, its parent
   is an unconfirmed or confirmed block with no child in the batch, the ring or the store.
   */
  lemma SetStateBlockSucceedsIff(s: Storage, c: Context, b: StateBlock, answered: bool, batch: Batch)
    requires WellFormed(s)
    ensures SetStateBlock(s, c, b, answered, batch).Some? <==>
            && answered
            && (OfBlock(b) in c.genesis || b.previous == ZeroHash ||
                ((b.previous in c.unconfirmed || BlockKey(b.previous) in View(s)) &&
                 ChildKey(b.previous) !in Apply(View(s), batch)))
  {
    ReadIsView(s, map[], BlockKey(b.previous));
    ApplyEmpty(View(s));
    ReadIsView(s, batch, ChildKey(b.previous));
  }

  /** The block takes something in, and names in its link what. */
  predicate Receives(b: StateBlock) {
    match b.typ
    case Open => true
    case Receive => true
    case ContractReward => true
    case _ => false
  }

  /** What a successful setStateBlock does to the link table: the receiving block is entered under its link. */
  lemma SetStateBlockLinks(s: Storage, c: Context, b: StateBlock, answered: bool, batch: Batch, h: Hash)
    requires WellFormed(s) && SetStateBlock(s, c, b, answered, batch).Some?
    ensures var t, t' := Apply(View(s), batch), Apply(View(s), SetStateBlock(s, c, b, answered, batch).value);
            Lookup(t', LinkKey(h)) ==
            if h == b.link && Receives(b) then Some(HashValue(OfBlock(b))) else Lookup(t, LinkKey(h))
  {
    SetStateBlockAdds(s, c, b, answered, batch);
  }

  lemma AddKeepsIndex(t: Table, genesis: set<Hash>, b: StateBlock)
    requires IndexExact(t, genesis)
    requires Indexed(genesis, b) ==> ChildKey(b.previous) !in t
    ensures IndexExact(Added(t, genesis, b), genesis)
  {
    var t' := Added(t, genesis, b);
    forall p ensures EntryRight(t', genesis, p) {
      assert EntryRight(t, genesis, p);
    }
    forall x ensures BlockEntered(t', genesis, x) {
      assert BlockEntered(t, genesis, x);
    }
  }

  lemma {:induction false} AddAllKeepsIndex(s: Storage, c: Context, blocks: seq<(StateBlock, bool)>)
    requires WellFormed(s) && IndexExact(View(s), c.genesis) && AddAll(s, c, blocks).Some?
    ensures IndexExact(Apply(View(s), AddAll(s, c, blocks).value), c.genesis)
    decreases |blocks|
  {
    if blocks == [] {
      ApplyEmpty(View(s));
    } else {
      var init, last := blocks[..|blocks| - 1], blocks[|blocks| - 1];
      AddAllKeepsIndex(s, c, init);
      var m := AddAll(s, c, init).value;
      SetStateBlockAdds(s, c, last.0, last.1, m);
      AddKeepsIndex(Apply(View(s), m), c.genesis, last.0);
    }
  }

  // ---- Deleting ----

  /** The flat map after deleting b: its entry, the child entry of its parent, and the link entry of its link. */
  ghost function Removed(t: Table, b: StateBlock): Table {
    t - ({BlockKey(OfBlock(b)), LinkKey(b.link)} + if b.Parent() == ZeroHash then {} else {ChildKey(b.Parent())})
  }

  lemma DeleteRemoves(s: Storage, hash: Hash, batch: Batch)
    requires WellFormed(s) && WellTyped(View(s)) && DeleteStateBlock(s, hash, batch).Some?
    ensures hash.OfBlock? && Confirmed(View(s), hash.block)
    ensures Apply(View(s), DeleteStateBlock(s, hash, batch).value) == Removed(Apply(View(s), batch), hash.block)
  {
    ReadIsView(s, map[], BlockKey(hash));
    ApplyEmpty(View(s));
    var b := hash.block;
    var m := batch[BlockKey(hash) := Deleted];
    var m' := if b.Parent() == ZeroHash then m else m[ChildKey(b.Parent()) := Deleted];
    ApplyPut(View(s), batch, BlockKey(hash), Deleted);
    ApplyPut(View(s), m, ChildKey(b.Parent()), Deleted);
    ApplyPut(View(s), m', LinkKey(b.link), Deleted);
  }

  /** DeleteStateBlock fails exactly when the block is not confirmed, whatever the batch holds. */
  lemma DeleteSucceedsIff(s: Storage, hash: Hash, batch: Batch)
    requires WellFormed(s) && WellTyped(View(s))
    ensures DeleteStateBlock(s, hash, batch).Some? <==> BlockKey(hash) in View(s)
  {
    ReadIsView(s, map[], BlockKey(hash));
    ApplyEmpty(View(s));
  }

  /** t0 is exact and t holds no block that t0 does not. */
  ghost predicate ShrunkFrom(t0: Table, t: Table, genesis: set<Hash>) {
    IndexExact(t0, genesis) && forall b :: Confirmed(t, b) ==> Confirmed(t0, b)
  }

  lemma RemoveKeepsIndex(t0: Table, t: Table, genesis: set<Hash>, b: StateBlock)
    requires ShrunkFrom(t0, t, genesis) && IndexExact(t, genesis)
    requires Confirmed(t0, b) && Indexed(genesis, b)
    ensures IndexExact(Removed(t, b), genesis) && ShrunkFrom(t0, Removed(t, b), genesis)
  {
    var t' := Removed(t, b);
    forall p ensures EntryRight(t', genesis, p) {
      assert EntryRight(t, genesis, p);
    }
    forall x ensures BlockEntered(t', genesis, x) {
      assert BlockEntered(t, genesis, x);
      if Confirmed(t', x) && Indexed(genesis, x) && x.previous == b.previous {
        NoForks(t0, genesis, x, b);
      }
    }
    forall x | Confirmed(t', x) ensures Confirmed(t0, x) {
      assert Confirmed(t, x);
    }
  }

  /** The blocks named are neither open nor genesis blocks. */
  ghost predicate Deletable(genesis: set<Hash>, hashes: seq<Hash>) {
    forall h :: h in hashes && h.OfBlock? ==> Indexed(genesis, h.block)
  }

  lemma {:induction false} DeleteAllKeepsIndex(s: Storage, genesis: set<Hash>, hashes: seq<Hash>)
    requires WellFormed(s) && IndexExact(View(s), genesis) && Deletable(genesis, hashes) && DeleteAll(s, hashes).Some?
    ensures var t := Apply(View(s), DeleteAll(s, hashes).value);
            IndexExact(t, genesis) && ShrunkFrom(View(s), t, genesis)
    decreases |hashes|
  {
    if hashes == [] {
      ApplyEmpty(View(s));
    } else {
      var init, last := hashes[..|hashes| - 1], hashes[|hashes| - 1];
      DeleteAllKeepsIndex(s, genesis, init);
      var m := DeleteAll(s, init).value;
      DeleteRemoves(s, last, m);
      RemoveKeepsIndex(View(s), Apply(View(s), m), genesis, last.block);
    }
  }

  /**
   Deleting one confirmed block keeps the child table exact if and only if the block is neither
   open nor genesis, or no child entry is recorded under its parent.  The parent of an open block
   is the send it answers, so deleting an open block erases the entry of the block after that send.
   */
  lemma DeleteKeepsIndexIff(t: Table, genesis: set<Hash>, b: StateBlock)
    requires IndexExact(t, genesis) && Confirmed(t, b)
    ensures IndexExact(Removed(t, b), genesis) <==>
            Indexed(genesis, b) || b.Parent() == ZeroHash || ChildKey(b.Parent()) !in t
  {
    var t' := Removed(t, b);
    if Indexed(genesis, b) {
      RemoveKeepsIndex(t, t, genesis, b);
    } else if b.Parent() == ZeroHash || ChildKey(b.Parent()) !in t {
      forall p ensures EntryRight(t', genesis, p) { assert EntryRight(t, genesis, p); }
      forall x ensures BlockEntered(t', genesis, x) { assert BlockEntered(t, genesis, x); }
    } else {
      var p := b.Parent();
      assert EntryRight(t, genesis, p);
      var x := t[ChildKey(p)].hash.block;
      assert Confirmed(t', x) && !BlockEntered(t', genesis, x);
    }
  }

  // ---- Whole runs, with the ring's own steps anywhere between ----

  datatype Event = Maintain(action: Action<Key, Value>) | Update(op: Op)

  ghost predicate ValidEvents(store: Table, events: seq<Event>)
    decreases |events|, 0
  {
    events == [] ||
    var init, last := events[..|events| - 1], events[|events| - 1];
    && ValidEvents(store, init)
    && var s := Exec(Initial(store), Trace(store, init));
       match last
       case Maintain(a) => !a.Commit? && Enabled(s, a)
       case Update(_) => s.mode == Running
  }

  /** The ring steps of a run of events; a failed update commits nothing. */
  ghost function Trace(store: Table, events: seq<Event>): (run: seq<Action<Key, Value>>)
    requires ValidEvents(store, events)
    ensures ValidRun(Initial(store), run)
    decreases |events|, 1
  {
    if events == [] then []
    else
      var run, last := Trace(store, events[..|events| - 1]), events[|events| - 1];
      var s := Exec(Initial(store), run);
      match last
      case Maintain(a) => Extend(store, run, a)
      case Update(op) =>
        match OpBatch(s, op)
        case None => run
        case Some(m) => Extend(store, run, Commit(m))
  }

  ghost function Extend(store: Table, run: seq<Action<Key, Value>>, a: Action<Key, Value>): (run': seq<Action<Key, Value>>)
    requires ValidRun(Initial(store), run) && Enabled(Exec(Initial(store), run), a)
    ensures ValidRun(Initial(store), run')
    ensures run' != [] && run'[..|run'| - 1] == run && run'[|run'| - 1] == a
  {
    assert (run + [a])[..|run|] == run;
    run + [a]
  }

  /** The flat map after the events. */
  ghost function After(store: Table, events: seq<Event>): Table
    requires ValidEvents(store, events)
  {
    View(Exec(Initial(store), Trace(store, events)))
  }

  ghost predicate Permitted(genesis: set<Hash>, e: Event) {
    match e
    case Maintain(_) => true
    case Update(AddBlocks(_, c)) => c.genesis == genesis
    case Update(DeleteBlocks(hashes)) => Deletable(genesis, hashes)
  }

  /** What one event does to the flat map. */
  lemma EventView(store: Table, events: seq<Event>)
    requires events != [] && ValidEvents(store, events)
    ensures var init, last := events[..|events| - 1], events[|events| - 1];
            var s := Exec(Initial(store), Trace(store, init));
            After(store, events) ==
              if last.Update? && OpBatch(s, last.op).Some? then Apply(View(s), OpBatch(s, last.op).value) else View(s)
  {
    var run := Trace(store, events);
    if run != Trace(store, events[..|events| - 1]) {
      RunStepView(store, run);
    }
  }

  /**
   No forks, over every run: after any sequence of add batches (several blocks at once, failing or
   not), deletions of blocks that are neither open nor genesis, rotations, flush phases, closes and
   rebuilds, the child table is exactly the inverse of the previous relation.
   */
  lemma {:induction false} IndexAlwaysExact(store: Table, genesis: set<Hash>, events: seq<Event>)
    requires IndexExact(store, genesis) && ValidEvents(store, events)
    requires forall i :: 0 <= i < |events| ==> Permitted(genesis, events[i])
    ensures IndexExact(After(store, events), genesis)
    decreases |events|
  {
    if events == [] {
      RunRefines(store, Trace(store, events));
      ApplyEmpty(store);
    } else {
      var init, last := events[..|events| - 1], events[|events| - 1];
      assert Permitted(genesis, last);
      IndexAlwaysExact(store, genesis, init);
      EventView(store, events);
      var s := Exec(Initial(store), Trace(store, init));
      if last.Update? && OpBatch(s, last.op).Some? {
        match last.op
        case AddBlocks(blocks, c) => AddAllKeepsIndex(s, c, blocks);
        case DeleteBlocks(hashes) => DeleteAllKeepsIndex(s, genesis, hashes);
      }
    }
  }

  // ---- The link table ----

  /** A link entry names a confirmed block that receives what the entry is about. */
  ghost predicate LinkRight(t: Table, h: Hash) {
    LinkKey(h) in t ==>
      && t[LinkKey(h)].HashValue? && t[LinkKey(h)].hash.OfBlock?
      && var b := t[LinkKey(h)].hash.block;
         Confirmed(t, b) && Receives(b) && b.link == h
  }

  ghost predicate LinksRight(t: Table) {
    WellTyped(t) && forall h :: LinkRight(t, h)
  }

  lemma AddKeepsLinks(t: Table, genesis: set<Hash>, b: StateBlock)
    requires LinksRight(t)
    ensures LinksRight(Added(t, genesis, b))
  {
    var t' := Added(t, genesis, b);
    forall h ensures LinkRight(t', h) { assert LinkRight(t, h); }
  }

  lemma RemoveKeepsLinks(t: Table, b: StateBlock)
    requires LinksRight(t)
    ensures LinksRight(Removed(t, b))
  {
    var t' := Removed(t, b);
    forall h ensures LinkRight(t', h) { assert LinkRight(t, h); }
  }

  lemma {:induction false} AddAllKeepsLinks(s: Storage, c: Context, blocks: seq<(StateBlock, bool)>)
    requires WellFormed(s) && LinksRight(View(s)) && AddAll(s, c, blocks).Some?
    ensures LinksRight(Apply(View(s), AddAll(s, c, blocks).value))
    decreases |blocks|
  {
    if blocks == [] {
      ApplyEmpty(View(s));
    } else {
      var init, last := blocks[..|blocks| - 1], blocks[|blocks| - 1];
      AddAllKeepsLinks(s, c, init);
      var m := AddAll(s, c, init).value;
      SetStateBlockAdds(s, c, last.0, last.1, m);
      AddKeepsLinks(Apply(View(s), m), c.genesis, last.0);
    }
  }

  lemma {:induction false} DeleteAllKeepsLinks(s: Storage, hashes: seq<Hash>)
    requires WellFormed(s) && LinksRight(View(s)) && DeleteAll(s, hashes).Some?
    ensures LinksRight(Apply(View(s), DeleteAll(s, hashes).value))
    decreases |hashes|
  {
    if hashes == [] {
      ApplyEmpty(View(s));
    } else {
      var init, last := hashes[..|hashes| - 1], hashes[|hashes| - 1];
      DeleteAllKeepsLinks(s, init);
      var m := DeleteAll(s, init).value;
      DeleteRemoves(s, last, m);
      RemoveKeepsLinks(Apply(View(s), m), last.block);
    }
  }

  /** Over every run, deletions of open and genesis blocks included, every link entry is right. */
  lemma {:induction false} LinksAlwaysRight(store: Table, events: seq<Event>)
    requires LinksRight(store) && ValidEvents(store, events)
    ensures LinksRight(After(store, events))
    decreases |events|
  {
    if events == [] {
      RunRefines(store, Trace(store, events));
      ApplyEmpty(store);
    } else {
      var init, last := events[..|events| - 1], events[|events| - 1];
      LinksAlwaysRight(store, init);
      EventView(store, events);
      var s := Exec(Initial(store), Trace(store, init));
      if last.Update? && OpBatch(s, last.op).Some? {
        match last.op
        case AddBlocks(blocks, c) => AddAllKeepsLinks(s, c, blocks);
        case DeleteBlocks(hashes) => DeleteAllKeepsLinks(s, hashes);
      }
    }
  }

  // ---- Add, then delete ----

  lemma QuietEvent(store: Table, events: seq<Event>, e: Event)
    requires ValidEvents(store, events + [e]) && e.Maintain?
    ensures ValidEvents(store, events) && After(store, events + [e]) == After(store, events)
  {
    assert (events + [e])[..|events|] == events;
    EventView(store, events + [e]);
  }

  lemma {:induction false} QuietEvents(store: Table, events: seq<Event>, quiet: seq<Event>)
    requires ValidEvents(store, events + quiet) && forall i :: 0 <= i < |quiet| ==> quiet[i].Maintain?
    ensures ValidEvents(store, events) && After(store, events + quiet) == After(store, events)
    decreases |quiet|
  {
    if quiet == [] {
      assert events + quiet == events;
    } else {
      var n := |quiet| - 1;
      assert events + quiet == (events + quiet[..n]) + [quiet[n]];
      QuietEvent(store, events + quiet[..n], quiet[n]);
      QuietEvents(store, events, quiet[..n]);
    }
  }

  /** Deleting a block right after adding it restores the tables exactly when nothing of it was there before. */
  lemma UndoIff(t: Table, genesis: set<Hash>, b: StateBlock)
    requires Indexed(genesis, b) ==> ChildKey(b.previous) !in t
    ensures Removed(Added(t, genesis, b), b) == t <==>
            && BlockKey(OfBlock(b)) !in t && LinkKey(b.link) !in t
            && (b.Parent() == ZeroHash || ChildKey(b.Parent()) !in t)
  {
    var r := Removed(Added(t, genesis, b), b);
    var gone := {BlockKey(OfBlock(b)), LinkKey(b.link)} + if b.Parent() == ZeroHash then {} else {ChildKey(b.Parent())};
    assert r.Keys == t.Keys - gone;
    assert forall k :: k in r ==> r[k] == t[k];
  }

  /**
   AddStateBlock of b, any number of ring steps, then DeleteStateBlock of b: the block, child and
   link tables are back to what they were if and only if b's own entry, the link entry of its
   link and the child entry of its parent were all absent.
   */
  lemma AddThenDeleteUndoesIff(store: Table, before: seq<Event>, b: StateBlock, c: Context, quiet: seq<Event>)
    requires var add, del := Update(AddBlocks([(b, true)], c)), Update(DeleteBlocks([OfBlock(b)]));
             ValidEvents(store, before + [add] + quiet + [del])
    requires forall i :: 0 <= i < |quiet| ==> quiet[i].Maintain?
    requires ValidEvents(store, before) && WellTyped(After(store, before))
    requires AddAll(Exec(Initial(store), Trace(store, before)), c, [(b, true)]).Some?
    ensures var add, del := Update(AddBlocks([(b, true)], c)), Update(DeleteBlocks([OfBlock(b)]));
            var t := After(store, before);
            After(store, before + [add] + quiet + [del]) == t <==>
              && BlockKey(OfBlock(b)) !in t && LinkKey(b.link) !in t
              && (b.Parent() == ZeroHash || ChildKey(b.Parent()) !in t)
  {
    var add, del := Update(AddBlocks([(b, true)], c)), Update(DeleteBlocks([OfBlock(b)]));
    var e1 := before + [add];
    var e2 := e1 + quiet;
    var e3 := e2 + [del];
    assert e3[..|e3| - 1] == e2;
    QuietEvents(store, e1, quiet);
    assert e1[..|e1| - 1] == before;
    EventView(store, e1);
    EventView(store, e3);
    var s := Exec(Initial(store), Trace(store, before));
    AddOne(s, c, b);
    var t1 := Added(View(s), c.genesis, b);
    var s2 := Exec(Initial(store), Trace(store, e2));
    DeleteOne(s2, OfBlock(b));
    UndoIff(View(s), c.genesis, b);
  }

  lemma AddOne(s: Storage, c: Context, b: StateBlock)
    requires WellFormed(s) && AddAll(s, c, [(b, true)]).Some?
    ensures Apply(View(s), AddAll(s, c, [(b, true)]).value) == Added(View(s), c.genesis, b)
    ensures Indexed(c.genesis, b) ==> ChildKey(b.previous) !in View(s)
    ensures WellTyped(View(s)) ==> WellTyped(Added(View(s), c.genesis, b))
  {
    var one := [(b, true)];
    assert one[..|one| - 1] == [] && AddAll(s, c, one[..|one| - 1]) == Some(map[]);
    SetStateBlockAdds(s, c, b, true, map[]);
    ApplyEmpty(View(s));
  }

  lemma DeleteOne(s: Storage, hash: Hash)
    requires WellFormed(s) && WellTyped(View(s)) && hash.OfBlock? && Confirmed(View(s), hash.block)
    ensures DeleteAll(s, [hash]).Some?
    ensures Apply(View(s), DeleteAll(s, [hash]).value) == Removed(View(s), hash.block)
  {
    var one := [hash];
    assert one[..|one| - 1] == [] && DeleteAll(s, one[..|one| - 1]) == Some(map[]);
    ReadIsView(s, map[], BlockKey(hash));
    ApplyEmpty(View(s));
    DeleteRemoves(s, hash, map[]);
  }

  // ---- A reachable deletion that breaks the index ----

  ghost predicate RunningAfter(store: Table, events: seq<Event>) {
    ValidEvents(store, events) && Exec(Initial(store), Trace(store, events)).mode == Running
  }

  lemma AddOneSucceeds(s: Storage, c: Context, b: StateBlock)
    requires WellFormed(s)
    requires Indexed(c.genesis, b) ==> BlockKey(b.previous) in View(s) && ChildKey(b.previous) !in View(s)
    ensures AddAll(s, c, [(b, true)]).Some?
  {
    ReadIsView(s, map[], BlockKey(b.previous));
    ReadIsView(s, map[], ChildKey(b.previous));
    ApplyEmpty(View(s));
    var one := [(b, true)];
    assert one[..|one| - 1] == [] && AddAll(s, c, one[..|one| - 1]) == Some(map[]);
  }

  /** A block whose parent is confirmed and childless is added. */
  lemma AddEvent(store: Table, events: seq<Event>, b: StateBlock, c: Context) returns (more: seq<Event>)
    requires RunningAfter(store, events)
    requires Indexed(c.genesis, b) ==>
               BlockKey(b.previous) in After(store, events) && ChildKey(b.previous) !in After(store, events)
    ensures more == events + [Update(AddBlocks([(b, true)], c))] && RunningAfter(store, more)
    ensures After(store, more) == Added(After(store, events), c.genesis, b)
    ensures IndexExact(After(store, events), c.genesis) ==> IndexExact(After(store, more), c.genesis)
  {
    if IndexExact(After(store, events), c.genesis) {
      AddKeepsIndex(After(store, events), c.genesis, b);
    }
    more := events + [Update(AddBlocks([(b, true)], c))];
    assert more[..|more| - 1] == events;
    var s := Exec(Initial(store), Trace(store, events));
    AddOneSucceeds(s, c, b);
    AddOne(s, c, b);
    EventView(store, more);
  }

  lemma DeleteEvent(store: Table, events: seq<Event>, b: StateBlock) returns (more: seq<Event>)
    requires RunningAfter(store, events) && WellTyped(After(store, events)) && Confirmed(After(store, events), b)
    ensures more == events + [Update(DeleteBlocks([OfBlock(b)]))] && ValidEvents(store, more)
    ensures After(store, more) == Removed(After(store, events), b)
  {
    more := events + [Update(DeleteBlocks([OfBlock(b)]))];
    assert more[..|more| - 1] == events;
    DeleteOne(Exec(Initial(store), Trace(store, events)), OfBlock(b));
    EventView(store, more);
  }

  function SampleBlock(typ: BlockType, address: Address, previous: Hash, link: Hash): StateBlock {
    StateBlock(typ, 0, address, 0, 0, 0, 0, 0, previous, link, ZeroHash, 0, 0)
  }

  const FIRST := SampleBlock(Open, OfKey(1), ZeroHash, ZeroHash)
  const SEND := SampleBlock(Send, OfKey(1), OfBlock(FIRST), OfKey(2))
  const NEXT := SampleBlock(Send, OfKey(1), OfBlock(SEND), OfKey(2))
  const ANSWER := SampleBlock(Open, OfKey(2), ZeroHash, OfBlock(SEND))

  /** A genesis block and a send after it. */
  lemma TwoBlocks(c: Context) returns (events: seq<Event>)
    requires c.genesis == {OfBlock(FIRST)}
    ensures RunningAfter(map[], events) && IndexExact(After(map[], events), c.genesis)
    ensures BlockKey(OfBlock(SEND)) in After(map[], events) && ChildKey(OfBlock(SEND)) !in After(map[], events)
  {
    StartsEmpty(c.genesis);
    events := AddEvent(map[], [], FIRST, c);
    events := AddEvent(map[], events, SEND, c);
  }

  /** A second send, and the open block that answers the first. */
  lemma FourBlocks(c: Context) returns (events: seq<Event>)
    requires c.genesis == {OfBlock(FIRST)}
    ensures RunningAfter(map[], events) && IndexExact(After(map[], events), c.genesis)
    ensures ChildKey(OfBlock(SEND)) in After(map[], events)
    ensures Confirmed(After(map[], events), NEXT) && Confirmed(After(map[], events), ANSWER)
  {
    events := TwoBlocks(c);
    events := AddEvent(map[], events, NEXT, c);
    events := AddEvent(map[], events, ANSWER, c);
  }

  /**
   A genesis block, a send, a second send after it, and the open block that answers the first: the index is
   exact.  Deleting the open block takes away the entry of the second send, which is still confirmed.
   */
  lemma DeletedOpenBreaksIndex(c: Context) returns (events: seq<Event>, more: seq<Event>)
    requires c.genesis == {OfBlock(FIRST)}
    ensures ValidEvents(map[], events) && IndexExact(After(map[], events), c.genesis)
    ensures more == events + [Update(DeleteBlocks([OfBlock(ANSWER)]))] && ValidEvents(map[], more)
    ensures Confirmed(After(map[], more), NEXT) && Indexed(c.genesis, NEXT)
    ensures ChildKey(NEXT.previous) !in After(map[], more) && !IndexExact(After(map[], more), c.genesis)
  {
    events := FourBlocks(c);
    more := DeleteEvent(map[], events, ANSWER);
    AnswerRemoved(After(map[], events));
    DeleteKeepsIndexIff(After(map[], events), c.genesis, ANSWER);
  }

  lemma AnswerRemoved(t: Table)
    requires Confirmed(t, NEXT)
    ensures Confirmed(Removed(t, ANSWER), NEXT) && ChildKey(NEXT.previous) !in Removed(t, ANSWER)
  {
    assert NEXT != ANSWER;
  }

  lemma StartsEmpty(genesis: set<Hash>)
    ensures RunningAfter(map[], []) && After(map[], []) == map[] && IndexExact(map[], genesis)
  {
    RunRefines<Key, Value>(map[], []);
    ApplyEmpty<Key, Value>(map[]);
  }

  // ---- The operations on a cache object ----

  /** setBlockChild: the parent must be known and childless. */
  method SetBlockChildIn(l: Ledger<Key, Value>, c: Context, b: StateBlock, batch: Cache<Key, Value>) returns (ok: bool)
    requires l.cache.Shape() && batch !in l.cache.caches
    modifies batch`entries
    ensures ok == SetBlockChild(old(l.cache.Abs()), c, b, old(batch.entries)).Some?
    ensures batch.entries ==
            if ok then SetBlockChild(old(l.cache.Abs()), c, b, old(batch.entries)).value else old(batch.entries)
  {
    ghost var s := l.cache.Abs();
    if OfBlock(b) in c.genesis || b.Parent() == ZeroHash || b.IsOpen() {
      return true;
    }
    ReadIsView(s, map[], BlockKey(b.Parent()));
    ReadIsView(s, batch.entries, ChildKey(b.Parent()));
    if b.Parent() !in c.unconfirmed {
      var parent := l.GetObject(BlockKey(b.Parent()), map[]);
      if parent.None? {
        return false;
      }
    }
    var child := l.GetObject(ChildKey(b.Parent()), batch.entries);
    if child.Some? {
      return false;
    }
    batch.Put(ChildKey(b.Parent()), Live(HashValue(OfBlock(b))));
    return true;
  }

  /** setStateBlock: fails before anything is written. */
  method SetStateBlockIn(l: Ledger<Key, Value>, c: Context, b: StateBlock, answered: bool, batch: Cache<Key, Value>)
      returns (ok: bool)
    requires l.cache.Shape() && batch !in l.cache.caches
    modifies batch`entries
    ensures ok == SetStateBlock(old(l.cache.Abs()), c, b, answered, old(batch.entries)).Some?
    ensures batch.entries ==
            if ok then SetStateBlock(old(l.cache.Abs()), c, b, answered, old(batch.entries)).value else old(batch.entries)
  {
    if !answered {
      return false;
    }
    ok := SetBlockChildIn(l, c, b, batch);
    if !ok {
      return;
    }
    if b.typ == Open || b.typ == Receive || b.typ == ContractReward {
      batch.Put(LinkKey(b.link), Live(HashValue(OfBlock(b))));
    }
    batch.Put(BlockKey(OfBlock(b)), Live(BlockValue(b)));
  }

  /** DeleteStateBlock: reads the block without the batch, then tombstones three keys. */
  method DeleteStateBlockIn(l: Ledger<Key, Value>, hash: Hash, batch: Cache<Key, Value>) returns (ok: bool)
    requires l.cache.Shape() && batch !in l.cache.caches
    modifies batch`entries
    ensures ok == DeleteStateBlock(old(l.cache.Abs()), hash, old(batch.entries)).Some?
    ensures batch.entries ==
            if ok then DeleteStateBlock(old(l.cache.Abs()), hash, old(batch.entries)).value else old(batch.entries)
  {
    ReadIsView(l.cache.Abs(), map[], BlockKey(hash));
    var found := l.GetObject(BlockKey(hash), map[]);
    if found.None? || found.value.HashValue? {
      return false;
    }
    var b := found.value.block;
    batch.Put(BlockKey(hash), Deleted);
    if b.Parent() != ZeroHash {
      batch.Put(ChildKey(b.Parent()), Deleted);
    }
    batch.Put(LinkKey(b.link), Deleted);
    return true;
  }
}
