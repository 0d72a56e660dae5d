/**
 A PoV block is spread over four tables: header, body and total difficulty under (height, hash), and the
 height under the hash.  AddPovBlock fills a batch table by table and commits it even when it fails half-way.
 */
module PovTables {
  import opened Ring
  import Blocks

  type UInt64 = x: int | 0 <= x < Blocks.TWO_64
  type PovHash = nat
  type Content = nat

  datatype PovHeader = PovHeader(height: UInt64, hash: PovHash, fields: Content)
  datatype PovBlock = PovBlock(header: PovHeader, body: Content)
  datatype PovTD = PovTD(chain: nat, algos: Content)
  datatype BlockKey = BlockKey(height: UInt64, hash: PovHash)

  datatype Tables = Tables(
    header: map<BlockKey, PovHeader>,
    body: map<BlockKey, Content>,
    height: map<PovHash, UInt64>,
    td: map<BlockKey, PovTD>)

  const NO_BLOCKS := Tables(map[], map[], map[], map[])

  datatype Error = Success | ErrBlockExists

  function KeyOf(b: PovBlock): BlockKey { BlockKey(b.header.height, b.header.hash) }

  // ---- Values ----

  /** What AddPovBlock leaves in its batch, error or not. */
  function Add(t: Tables, b: PovBlock, td: PovTD): (Tables, Error) {
    var k := KeyOf(b);
    if k in t.header then (t, ErrBlockExists)
    else
      var t1 := t.(header := t.header[k := b.header]);
      if k in t.body then (t1, ErrBlockExists)
      else
        var t2 := t1.(body := t1.body[k := b.body]);
        if k.hash in t.height then (t2, ErrBlockExists)
        else
          var t3 := t2.(height := t2.height[k.hash := k.height]);
          if k in t.td then (t3, ErrBlockExists)
          else (t3.(td := t3.td[k := td]), Success)
  }

  function Delete(t: Tables, b: PovBlock): Tables {
    var k := KeyOf(b);
    Tables(t.header - {k}, t.body - {k}, t.height - {k.hash}, t.td - {k})
  }

  /** GetPovBlockByHash: the height, then header and body under it. */
  function GetByHash(t: Tables, hash: PovHash): Option<PovBlock> {
    if hash !in t.height then None
    else
      var k := BlockKey(t.height[hash], hash);
      if k in t.header && k in t.body then Some(PovBlock(t.header[k], t.body[k])) else None
  }

  function GetTD(t: Tables, hash: PovHash): Option<PovTD> {
    if hash in t.height && BlockKey(t.height[hash], hash) in t.td then Some(t.td[BlockKey(t.height[hash], hash)])
    else None
  }

  /** The four tables hold the same blocks. */
  ghost predicate InStep(t: Tables) {
    && t.header.Keys == t.body.Keys == t.td.Keys
    && (forall k :: k in t.header <==> k.hash in t.height && t.height[k.hash] == k.height)
  }

  /** The hash is already registered, at another height. */
  predicate Misplaced(t: Tables, b: PovBlock) {
    b.header.hash in t.height && t.height[b.header.hash] != b.header.height
  }

  /**
   In any state, a failing AddPovBlock changes nothing exactly when it was the header check that failed:
   what the later checks find already in the batch is committed.
   */
  lemma FailedAddChangesNothingIff(t: Tables, b: PovBlock, td: PovTD)
    requires Add(t, b, td).1 == ErrBlockExists
    ensures Add(t, b, td).0 == t <==> KeyOf(b) in t.header
  {
    if KeyOf(b) !in t.header {
      assert KeyOf(b) in Add(t, b, td).0.header;
    }
  }

  /** On tables in step, AddPovBlock keeps them so, and a failing one changes nothing, unless the hash has another height. */
  lemma AddKeepsStepIff(t: Tables, b: PovBlock, td: PovTD)
    requires InStep(t)
    ensures InStep(Add(t, b, td).0) <==> !Misplaced(t, b)
    ensures Add(t, b, td).1 == Success <==> b.header.hash !in t.height
    ensures Add(t, b, td).1 == ErrBlockExists ==> (Add(t, b, td).0 == t <==> !Misplaced(t, b))
  {
    var k, t' := KeyOf(b), Add(t, b, td).0;
    assert k in t.header <==> k.hash in t.height && t.height[k.hash] == k.height;
    if Misplaced(t, b) {
      assert k in t'.header && t'.height == t.height;
    } else if k !in t.header {
      forall k' ensures k' in t'.header <==> k'.hash in t'.height && t'.height[k'.hash] == k'.height {
        assert k' in t.header <==> k'.hash in t.height && t.height[k'.hash] == k'.height;
      }
    }
  }

  /** One hash at two heights: the second add reports an error and leaves a header and a body behind. */
  lemma SecondHeightPartsTables()
    ensures var first, second := PovBlock(PovHeader(1, 7, 0), 0), PovBlock(PovHeader(2, 7, 0), 0);
            var t := Add(NO_BLOCKS, first, PovTD(0, 0)).0;
            var (t', err) := Add(t, second, PovTD(0, 0));
            && InStep(t) && err == ErrBlockExists
            && KeyOf(second) in t'.header && KeyOf(second) in t'.body && KeyOf(second) !in t'.td && !InStep(t')
  {
    AddKeepsStepIff(NO_BLOCKS, PovBlock(PovHeader(1, 7, 0), 0), PovTD(0, 0));
  }

  lemma DeleteKeepsStepIff(t: Tables, b: PovBlock)
    requires InStep(t)
    ensures InStep(Delete(t, b)) <==> !Misplaced(t, b)
  {
    var k, t' := KeyOf(b), Delete(t, b);
    if Misplaced(t, b) {
      var other := BlockKey(t.height[k.hash], k.hash);
      assert other in t.header && other in t'.header && other.hash !in t'.height;
    } else {
      forall k' ensures k' in t'.header <==> k'.hash in t'.height && t'.height[k'.hash] == k'.height {
        assert k' in t.header <==> k'.hash in t.height && t.height[k'.hash] == k'.height;
      }
    }
  }

  /** Deleting a hash under another height: its header, body and difficulty stay, and no lookup finds them. */
  lemma DeleteOfOtherHeightPartsTables()
    ensures var first, second := PovBlock(PovHeader(1, 7, 0), 0), PovBlock(PovHeader(2, 7, 0), 0);
            var t := Add(NO_BLOCKS, first, PovTD(0, 0)).0;
            var t' := Delete(t, second);
            && InStep(t) && GetByHash(t, 7) == Some(first)
            && KeyOf(first) in t'.header && GetByHash(t', 7) == None && !InStep(t')
  {
    var first, second := PovBlock(PovHeader(1, 7, 0), 0), PovBlock(PovHeader(2, 7, 0), 0);
    AddKeepsStepIff(NO_BLOCKS, first, PovTD(0, 0));
    DeleteKeepsStepIff(Add(NO_BLOCKS, first, PovTD(0, 0)).0, second);
  }

  // ---- Runs ----

  datatype Op = AddOp(block: PovBlock, td: PovTD) | DeleteOp(block: PovBlock)

  function Step(t: Tables, op: Op): Tables {
    match op
    case AddOp(b, td) => Add(t, b, td).0
    case DeleteOp(b) => Delete(t, b)
  }

  function Exec(run: seq<Op>): Tables {
    if run == [] then NO_BLOCKS else Step(Exec(run[..|run| - 1]), run[|run| - 1])
  }

  /** The store as one map from hash to what was added first and not deleted since. */
  function Flat(run: seq<Op>): map<PovHash, (PovBlock, PovTD)> {
    if run == [] then map[]
    else
      var flat, op := Flat(run[..|run| - 1]), run[|run| - 1];
      var h := op.block.header.hash;
      if op.DeleteOp? then flat - {h} else if h in flat then flat else flat[h := (op.block, op.td)]
  }

  /** The tables spell out the flat map. */
  ghost predicate Represents(t: Tables, flat: map<PovHash, (PovBlock, PovTD)>) {
    && InStep(t)
    && t.height.Keys == flat.Keys
    && (forall h :: h in flat ==> Holds(t, h, flat[h].0, flat[h].1))
  }

  /** Looking the hash up finds this block and difficulty. */
  ghost predicate Holds(t: Tables, h: PovHash, b: PovBlock, td: PovTD) {
    && h in t.height && t.height[h] == b.header.height
    && GetByHash(t, h) == Some(b) && GetTD(t, h) == Some(td)
  }

  /** A step on one hash leaves what the others hold. */
  lemma AddKeepsOthers(t: Tables, b: PovBlock, td: PovTD, h: PovHash, b': PovBlock, td': PovTD)
    requires Holds(t, h, b', td') && h != b.header.hash
    ensures Holds(Add(t, b, td).0, h, b', td') && Holds(Delete(t, b), h, b', td')
  {
  }

  /** Hashes determine heights: no two blocks of the run share a hash at different heights. */
  ghost predicate HeightsFit(run: seq<Op>, heightOf: PovHash -> UInt64) {
    forall i :: 0 <= i < |run| ==> run[i].block.header.height == heightOf(run[i].block.header.hash)
  }

  lemma {:induction false} FlatHeights(run: seq<Op>, heightOf: PovHash -> UInt64)
    requires HeightsFit(run, heightOf)
    ensures forall h :: h in Flat(run) ==> Flat(run)[h].0.header.height == heightOf(h) && Flat(run)[h].0.header.hash == h
    decreases |run|
  {
    if run != [] {
      FlatHeights(run[..|run| - 1], heightOf);
    }
  }

  lemma AddRepresents(t: Tables, flat: map<PovHash, (PovBlock, PovTD)>, b: PovBlock, td: PovTD)
    requires Represents(t, flat) && !Misplaced(t, b)
    ensures var h := b.header.hash;
            Represents(Add(t, b, td).0, if h in flat then flat else flat[h := (b, td)])
  {
    AddKeepsStepIff(t, b, td);
    var t' := Add(t, b, td).0;
    var h := b.header.hash;
    if h in flat {
      assert t' == t;
    } else {
      assert Holds(t', h, b, td);
      forall h' | h' in flat ensures Holds(t', h', flat[h'].0, flat[h'].1) {
        AddKeepsOthers(t, b, td, h', flat[h'].0, flat[h'].1);
      }
    }
  }

  lemma DeleteRepresents(t: Tables, flat: map<PovHash, (PovBlock, PovTD)>, b: PovBlock)
    requires Represents(t, flat) && !Misplaced(t, b)
    ensures Represents(Delete(t, b), flat - {b.header.hash})
  {
    DeleteKeepsStepIff(t, b);
    var t' := Delete(t, b);
    forall h | h in flat && h != b.header.hash ensures Holds(t', h, flat[h].0, flat[h].1) {
      AddKeepsOthers(t, b, PovTD(0, 0), h, flat[h].0, flat[h].1);
    }
  }

  /**
   After any run of additions and deletions the four tables are in step, and looking a hash up returns
   exactly the block and difficulty first added under it and not deleted since, or nothing.
   */
  lemma {:induction false} TablesAlwaysInStep(run: seq<Op>, heightOf: PovHash -> UInt64)
    requires HeightsFit(run, heightOf)
    ensures Represents(Exec(run), Flat(run))
    ensures forall h :: GetByHash(Exec(run), h).Some? <==> h in Flat(run)
    decreases |run|
  {
    if run != [] {
      var before, op := run[..|run| - 1], run[|run| - 1];
      TablesAlwaysInStep(before, heightOf);
      FlatHeights(before, heightOf);
      assert !Misplaced(Exec(before), op.block);
      match op
      case AddOp(b, td) => AddRepresents(Exec(before), Flat(before), b, td);
      case DeleteOp(b) => DeleteRepresents(Exec(before), Flat(before), b);
    }
  }

  // ---- Batches ----

  /** A batch reads through to the store it was opened on. */
  class Batch {
    var tables: Tables

    constructor (tables: Tables)
      ensures this.tables == tables
    {
      this.tables := tables;
    }

    method AddHeader(header: PovHeader) returns (err: Error)
      modifies this
      ensures var k := BlockKey(header.height, header.hash);
              && (err == ErrBlockExists <==> k in old(tables).header)
              && tables == if err == Success then old(tables).(header := old(tables).header[k := header]) else old(tables)
    {
      var key := BlockKey(header.height, header.hash);
      if key in tables.header {
        return ErrBlockExists;
      }
      tables := tables.(header := tables.header[key := header]);
      return Success;
    }

    method AddBody(height: UInt64, hash: PovHash, body: Content) returns (err: Error)
      modifies this
      ensures var k := BlockKey(height, hash);
              && (err == ErrBlockExists <==> k in old(tables).body)
              && tables == if err == Success then old(tables).(body := old(tables).body[k := body]) else old(tables)
    {
      var key := BlockKey(height, hash);
      if key in tables.body {
        return ErrBlockExists;
      }
      tables := tables.(body := tables.body[key := body]);
      return Success;
    }

    method AddHeight(hash: PovHash, height: UInt64) returns (err: Error)
      modifies this
      ensures err == ErrBlockExists <==> hash in old(tables).height
      ensures tables == if err == Success then old(tables).(height := old(tables).height[hash := height]) else old(tables)
    {
      if hash in tables.height {
        return ErrBlockExists;
      }
      tables := tables.(height := tables.height[hash := height]);
      return Success;
    }

    method AddTD(hash: PovHash, height: UInt64, td: PovTD) returns (err: Error)
      modifies this
      ensures var k := BlockKey(height, hash);
              && (err == ErrBlockExists <==> k in old(tables).td)
              && tables == if err == Success then old(tables).(td := old(tables).td[k := td]) else old(tables)
    {
      var key := BlockKey(height, hash);
      if key in tables.td {
        return ErrBlockExists;
      }
      tables := tables.(td := tables.td[key := td]);
      return Success;
    }
  }

  class PovStore {
    var tables: Tables

    constructor ()
      ensures tables == NO_BLOCKS
    {
      tables := NO_BLOCKS;
    }

    /** Without a batch of the caller's, one is opened here and committed on every path, failing or not. */
    method AddPovBlock(b: PovBlock, td: PovTD, given: Batch?) returns (err: Error)
      modifies this, given
      ensures given == null ==> (tables, err) == Add(old(tables), b, td)
      ensures given != null ==> (given.tables, err) == Add(old(given.tables), b, td) && tables == old(tables)
    {
      var batch := given;
      if batch == null {
        batch := new Batch(tables);
      }
      err := FillBatch(batch, b, td);
      if given == null {
        tables := batch.tables;
      }
    }

    static method FillBatch(batch: Batch, b: PovBlock, td: PovTD) returns (err: Error)
      modifies batch
      ensures (batch.tables, err) == Add(old(batch.tables), b, td)
    {
      err := batch.AddHeader(b.header);
      if err != Success {
        return;
      }
      err := batch.AddBody(b.header.height, b.header.hash, b.body);
      if err != Success {
        return;
      }
      err := batch.AddHeight(b.header.hash, b.header.height);
      if err != Success {
        return;
      }
      err := batch.AddTD(b.header.hash, b.header.height, td);
    }

    method DeletePovBlock(b: PovBlock)
      modifies this
      ensures tables == Delete(old(tables), b)
    {
      var batch := new Batch(tables);
      var k := KeyOf(b);
      batch.tables := batch.tables.(header := batch.tables.header - {k});
      batch.tables := batch.tables.(body := batch.tables.body - {k});
      batch.tables := batch.tables.(height := batch.tables.height - {k.hash});
      batch.tables := batch.tables.(td := batch.tables.td - {k});
      tables := batch.tables;
    }

    method GetPovBlockByHash(hash: PovHash) returns (r: Option<PovBlock>)
      ensures r == GetByHash(tables, hash)
      ensures InStep(tables) ==> (r.Some? <==> hash in tables.height)
    {
      if hash !in tables.height {
        return None;
      }
      var key := BlockKey(tables.height[hash], hash);
      if key !in tables.header || key !in tables.body {
        return None;
      }
      return Some(PovBlock(tables.header[key], tables.body[key]));
    }
  }
}
