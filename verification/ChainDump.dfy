/**
 The dump numbers the blocks of a token chain: a walk from the header counts downwards, blocks hanging
 off the chain are placed beside it, and a last pass turns the count around.
 */
module ChainDump {
  import opened Blocks

  /** Number of blocks from the open block up to and including this one. */
  function Depth(h: Hash): nat {
    if h.OfBlock? then 1 + Depth(h.block.previous) else 0
  }

  /** Where the walk stops: the zero hash, or a block that is not known. */
  function Stop(header: Hash, known: set<Hash>): Hash {
    if header.OfBlock? && header in known then Stop(header.block.previous, known) else header
  }

  /** The walk reached the open block. */
  predicate Complete(header: Hash, known: set<Hash>) {
    Walk(header, known) != [] && Stop(header, known) == ZeroHash
  }

  /** The parent is a block, and it is on the chain. */
  predicate BesideChain(header: Hash, known: set<Hash>, h: Hash) {
    h.OfBlock? && h.block.previous != ZeroHash && h.block.previous in Walk(header, known)
  }

  /** How many blocks of the walk come before h. */
  function Position(header: Hash, known: set<Hash>, h: Hash): nat
    requires h in Walk(header, known)
  {
    if header == h then 0 else 1 + Position(header.block.previous, known, h)
  }

  /** The number of the header: the walk's last count, which a missing block makes one too high. */
  function Top(header: Hash, known: set<Hash>): nat {
    |Walk(header, known)| + if Complete(header, known) then 0 else 1
  }

  /** The number the dump gives a block: down from the header, beside the chain, or above it. */
  function Height(header: Hash, known: set<Hash>, h: Hash): int {
    if h in Walk(header, known) then Top(header, known) - Position(header, known, h)
    else if BesideChain(header, known, h) then Top(header, known) - Position(header, known, h.block.previous) + 1
    else Top(header, known) + 1
  }

  // ---- What the numbers mean ----

  lemma {:induction false} WalkDepth(header: Hash, known: set<Hash>)
    ensures |Walk(header, known)| == Depth(header) - Depth(Stop(header, known))
    ensures forall h :: h in Walk(header, known) ==> h.OfBlock? && h in known && Depth(Stop(header, known)) < Depth(h) <= Depth(header)
    ensures forall i :: 0 <= i < |Walk(header, known)| ==> Depth(Walk(header, known)[i]) == Depth(header) - i
  {
    if header.OfBlock? && header in known {
      WalkDepth(header.block.previous, known);
    }
  }

  lemma {:induction false} PositionIsDepth(header: Hash, known: set<Hash>, h: Hash)
    requires h in Walk(header, known)
    ensures h.OfBlock? && Position(header, known, h) == Depth(header) - Depth(h)
  {
    if header != h {
      PositionIsDepth(header.block.previous, known, h);
    }
  }

  /** By how much the dump's numbers exceed the depths. */
  function Offset(header: Hash, known: set<Hash>): int {
    if Complete(header, known) then 0 else 1 - Depth(Stop(header, known))
  }

  /** The numbers are depths, shifted, for every block on the chain or beside it. */
  lemma HeightByDepth(header: Hash, known: set<Hash>, h: Hash)
    ensures Top(header, known) == Depth(header) + Offset(header, known)
    ensures Height(header, known, h) ==
            if h in Walk(header, known) || BesideChain(header, known, h) then Depth(h) + Offset(header, known)
            else Depth(header) + Offset(header, known) + 1
  {
    WalkDepth(header, known);
    if h in Walk(header, known) {
      PositionIsDepth(header, known, h);
    } else if BesideChain(header, known, h) {
      PositionIsDepth(header, known, h.block.previous);
    }
  }

  /** A complete chain of n blocks is numbered n, n - 1, ..., 1 from the header down to the open block. */
  lemma CompleteChainNumbered(header: Hash, known: set<Hash>)
    requires Complete(header, known)
    ensures var w := Walk(header, known);
            forall i :: 0 <= i < |w| ==> Height(header, known, w[i]) == |w| - i
  {
    WalkDepth(header, known);
    var w := Walk(header, known);
    forall i | 0 <= i < |w| ensures Height(header, known, w[i]) == |w| - i {
      HeightByDepth(header, known, w[i]);
    }
  }

  /** The blocks on the chain get their depths exactly when no ancestor is missing, or the open block alone is. */
  lemma ChainHeightIsDepthIff(header: Hash, known: set<Hash>, h: Hash)
    requires h in Walk(header, known)
    ensures Height(header, known, h) == Depth(h) <==> Complete(header, known) || Depth(Stop(header, known)) == 1
  {
    HeightByDepth(header, known, h);
  }

  function SampleBlock(previous: Hash): StateBlock {
    StateBlock(PlainState, 0, OfKey(1), 0, 0, 0, 0, 0, previous, ZeroHash, ZeroHash, 0, 0)
  }

  /** With two ancestors missing, the third block of a chain is numbered two. */
  lemma TwoMissingShiftHeights()
    ensures var second := SampleBlock(OfBlock(SampleBlock(ZeroHash)));
            var header := OfBlock(SampleBlock(OfBlock(second)));
            header in Walk(header, {header}) && Depth(header) == 3 && Height(header, {header}, header) == 2
  {
    var open, second := OfBlock(SampleBlock(ZeroHash)), OfBlock(SampleBlock(OfBlock(SampleBlock(ZeroHash))));
    var header := OfBlock(SampleBlock(second));
    assert Depth(open) == 1 && Depth(second) == 2;
    assert second != header;
    assert Walk(header, {header}) == [header];
  }

  /** One above its parent, for every block whose parent is on the chain, complete or not. */
  lemma ChildIsOneAbove(header: Hash, known: set<Hash>, h: Hash)
    requires h.OfBlock? && h.block.previous in Walk(header, known)
    ensures Height(header, known, h) == Height(header, known, h.block.previous) + 1
  {
    PositionIsDepth(header, known, h.block.previous);
    HeightByDepth(header, known, h);
    HeightByDepth(header, known, h.block.previous);
  }

  /**
   Any other block off the chain gets the number above the header's, whatever its place: the record's
   documented zero for an isolated block never appears.
   */
  lemma IsolatedHeight(header: Hash, known: set<Hash>, h: Hash)
    requires h !in Walk(header, known) && !BesideChain(header, known, h)
    ensures Height(header, known, h) >= 2
    ensures Walk(header, known) != [] ==> Height(header, known, h) == Height(header, known, header) + 1
  {
  }

  // ---- The passes ----

  class Block {
    const hash: Hash
    const previous: Hash
    var blockHeight: int
    var inChain: bool

    constructor (blk: StateBlock)
      ensures hash == OfBlock(blk) && previous == blk.previous
      ensures blockHeight == 0 && !inChain
    {
      hash := OfBlock(blk);
      previous := blk.previous;
      blockHeight := 0;
      inChain := false;
    }
  }

  /** The records of one token, by hash. */
  ghost predicate Records(blocks: map<Hash, Block>) {
    forall h :: h in blocks ==> h.OfBlock? && blocks[h].hash == h && blocks[h].previous == h.block.previous
  }

  /** The records of `done` are numbered down from the header; the others are untouched. */
  ghost predicate Counted(blocks: map<Hash, Block>, done: seq<Hash>, header: Hash)
    reads blocks.Values
  {
    forall h :: h in blocks ==>
      && blocks[h].inChain == (h in done)
      && blocks[h].blockHeight == if h in done then Depth(header) - Depth(h) + 1 else 0
  }

  /** Numbers one block of the walk. */
  method Mark(blocks: map<Hash, Block>, cur: Hash, index: int, ghost done: seq<Hash>, ghost header: Hash)
    requires Records(blocks) && Counted(blocks, done, header) && cur in blocks
    requires index == Depth(header) - Depth(cur) + 1
    modifies blocks[cur]
    ensures Counted(blocks, done + [cur], header)
  {
    blocks[cur].blockHeight := index;
    blocks[cur].inChain := true;
  }

  lemma WalkDown(done: seq<Hash>, cur: Hash, header: Hash, known: set<Hash>)
    requires done + Walk(cur, known) == Walk(header, known) && cur.OfBlock? && cur in known
    ensures (done + [cur]) + Walk(cur.block.previous, known) == Walk(header, known)
  {
    assert (done + [cur]) + Walk(cur.block.previous, known) == done + ([cur] + Walk(cur.block.previous, known));
  }

  /** The walk from the header.  `index` is the count of the last step. */
  method WalkChain(blocks: map<Hash, Block>, header: Hash, openBlock: Hash) returns (index: int, consecutive: bool)
    requires Records(blocks) && Counted(blocks, [], header)
    modifies blocks.Values
    ensures Counted(blocks, Walk(header, blocks.Keys), header)
    ensures index == Depth(header) + Offset(header, blocks.Keys)
    ensures consecutive <==> Complete(header, blocks.Keys) && openBlock == Walk(header, blocks.Keys)[|Walk(header, blocks.Keys)| - 1]
  {
    ghost var known, done := blocks.Keys, [];
    var cur := header;
    index, consecutive := 1, false;
    while cur in blocks
      invariant done + Walk(cur, known) == Walk(header, known) && Stop(cur, known) == Stop(header, known)
      invariant forall h :: h in done ==> Depth(cur) < Depth(h)
      invariant Counted(blocks, done, header)
      invariant index == Depth(header) - Depth(cur) + 1
      invariant !consecutive && (done != [] ==> cur != ZeroHash)
      decreases cur
    {
      WalkDown(done, cur, header, known);
      Mark(blocks, cur, index, done, header);
      done := done + [cur];
      var block := blocks[cur];
      cur := block.previous;
      if cur == ZeroHash {
        assert Walk(header, known) == done;
        consecutive := block.hash == openBlock;
        return;
      }
      index := index + 1;
    }
    assert Walk(cur, known) == [];
    assert done == Walk(header, known);
  }

  /** The records the walk did not reach. */
  method OffChain(blocks: map<Hash, Block>) returns (off: set<Hash>)
    ensures off == set h | h in blocks && !blocks[h].inChain
  {
    off := set h | h in blocks && !blocks[h].inChain;
  }

  /** The count before it is turned around, for a given chain; zero while a record waits in `todo`. */
  ghost function Downward(chain: seq<Hash>, header: Hash, h: Hash, todo: set<Hash>): int {
    if h in chain || (h !in todo && h.OfBlock? && h.block.previous != ZeroHash && h.block.previous in chain)
    then Depth(header) - Depth(h) + 1 else 0
  }

  ghost predicate Placed(blocks: map<Hash, Block>, chain: seq<Hash>, header: Hash, todo: set<Hash>)
    reads blocks.Values
  {
    forall h :: h in blocks ==>
      && blocks[h].inChain == (h in chain)
      && blocks[h].blockHeight == Downward(chain, header, h, todo)
  }

  /** The parent a record names, if any, is among the records. */
  ghost predicate HasParent(blocks: map<Hash, Block>, h: Hash) {
    h.OfBlock? && (h.block.previous == ZeroHash || h.block.previous in blocks)
  }

  /** Places one block beside its parent.  The lookup of an absent parent fails the dump. */
  method Place(blocks: map<Hash, Block>, h: Hash, ghost header: Hash, ghost chain: seq<Hash>, ghost todo: set<Hash>)
      returns (ok: bool)
    requires Records(blocks) && Placed(blocks, chain, header, todo) && h in blocks && h !in chain && h in todo
    modifies blocks[h]
    ensures ok <==> HasParent(blocks, h)
    ensures ok ==> Placed(blocks, chain, header, todo - {h})
  {
    var b := blocks[h];
    if b.previous != ZeroHash {
      if b.previous !in blocks {
        return false;
      }
      if blocks[b.previous].inChain {
        b.blockHeight := blocks[b.previous].blockHeight - 1;
      }
    }
    return true;
  }

  /**
   Places the blocks off the chain, in any order.
   The further search behind a placed block compares its own parent with itself and never succeeds.
   */
  method PlaceOffChain(blocks: map<Hash, Block>, header: Hash, off: set<Hash>, ghost chain: seq<Hash>) returns (ok: bool)
    requires Records(blocks) && Counted(blocks, chain, header)
    requires forall h :: h in off <==> h in blocks && h !in chain
    modifies blocks.Values
    ensures ok <==> forall h :: h in off ==> HasParent(blocks, h)
    ensures ok ==> Placed(blocks, chain, header, {})
  {
    var todo := off;
    while todo != {}
      invariant todo <= off
      invariant Placed(blocks, chain, header, todo)
      invariant forall h :: h in off - todo ==> HasParent(blocks, h)
      decreases |todo|
    {
      var h :| h in todo;
      ok := Place(blocks, h, header, chain, todo);
      if !ok {
        return;
      }
      todo := todo - {h};
    }
    return true;
  }

  /** The last pass, over all records in any order. */
  method TurnAround(blocks: map<Hash, Block>, total: int)
    requires Records(blocks)
    modifies blocks.Values
    ensures forall h :: h in blocks ==> blocks[h].blockHeight == total - old(blocks[h].blockHeight)
    ensures forall h :: h in blocks ==> blocks[h].inChain == old(blocks[h].inChain)
  {
    var todo := blocks.Keys;
    while todo != {}
      invariant todo <= blocks.Keys
      invariant forall h :: h in blocks ==> blocks[h].inChain == old(blocks[h].inChain)
      invariant forall h :: h in blocks ==>
                  blocks[h].blockHeight == if h in todo then old(blocks[h].blockHeight) else total - old(blocks[h].blockHeight)
      decreases |todo|
    {
      var h :| h in todo;
      blocks[h].blockHeight := total - blocks[h].blockHeight;
      todo := todo - {h};
    }
  }

  /** dumpBlockByAccount for one token. */
  method Dump(blocks: map<Hash, Block>, header: Hash, openBlock: Hash)
      returns (ok: bool, consecutive: bool, certain: bool)
    requires Records(blocks) && Counted(blocks, [], header)
    modifies blocks.Values
    ensures ok <==> forall h :: h in blocks && h !in Walk(header, blocks.Keys) ==> HasParent(blocks, h)
    ensures ok ==> forall h :: h in blocks ==>
              && blocks[h].blockHeight == Height(header, blocks.Keys, h)
              && blocks[h].inChain == (h in Walk(header, blocks.Keys))
    ensures consecutive <==> Complete(header, blocks.Keys) && openBlock == Walk(header, blocks.Keys)[|Walk(header, blocks.Keys)| - 1]
    ensures certain <==> forall h :: h in blocks ==> h in Walk(header, blocks.Keys)
  {
    var index;
    index, consecutive := WalkChain(blocks, header, openBlock);
    var off := OffChain(blocks);
    certain := off == {};
    assert forall h :: h in off <==> h in blocks && h !in Walk(header, blocks.Keys);
    ok := PlaceOffChain(blocks, header, off, Walk(header, blocks.Keys));
    if ok {
      TurnAround(blocks, index + 1);
      forall h | h in blocks ensures blocks[h].blockHeight == Height(header, blocks.Keys, h) {
        HeightByDepth(header, blocks.Keys, h);
      }
    }
  }
}
