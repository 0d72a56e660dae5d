/**
 The history of token records by PoV height.  Each confirmed block writes its token record under
 (account, height, token), so a later block of the same height overwrites an earlier one;
 GetTokenMetaByPovHeight walks down from a height to the first record it finds.
 */
module TokenHistory {
  import opened Ring
  import opened RingTheorems
  import opened Blocks
  import opened Accounts
  import opened MemoryCache
  import MergedIteration

  datatype Key = ByHash(hash: Hash) | ByHeight(account: Address, height: nat, token: Token)

  type Table = map<Key, TokenMeta>
  type Batch = map<Key, Entry<TokenMeta>>

  // ---- The operations ----

  function AddHistory(tm: TokenMeta, b: StateBlock): Batch {
    map[ByHash(OfBlock(b)) := Live(tm), ByHeight(tm.belongTo, b.povHeight, tm.typ) := Live(tm)]
  }

  /** Rolling block b back; tm is the record of the block before it.  None: that block is not found. */
  function UpdateHistory(tm: TokenMeta, b: StateBlock, known: set<Hash>): Option<Batch> {
    var at := ByHeight(b.address, b.povHeight, b.token);
    if b.previous == ZeroHash then Some(map[ByHash(OfBlock(b)) := Deleted, at := Deleted])
    else if b.previous !in known || !b.previous.OfBlock? then None
    else if b.povHeight != b.previous.block.povHeight then Some(map[ByHash(OfBlock(b)) := Deleted, at := Deleted])
    else Some(map[ByHash(OfBlock(b)) := Deleted, at := Live(tm)])
  }

  /** The downward search. */
  function Search(t: Table, account: Address, token: Token, height: nat): Option<TokenMeta> {
    if ByHeight(account, height, token) in t then Some(t[ByHeight(account, height, token)])
    else if height == 0 then None
    else Search(t, account, token, height - 1)
  }

  // ---- Replay: the chain of blocks itself ----

  /** A confirmed block with the token record it produced. */
  datatype Link = Link(block: StateBlock, meta: TokenMeta)

  type Chain = seq<Link>

  /** The record after the last block of height at most `height`. */
  function LastUpTo(chain: Chain, height: nat): Option<TokenMeta> {
    if chain == [] then None
    else
      var last := chain[|chain| - 1];
      if last.block.povHeight <= height then Some(last.meta) else LastUpTo(chain[..|chain| - 1], height)
  }

  ghost predicate Nondecreasing(chain: Chain) {
    forall i, j :: 0 <= i < j < |chain| ==> chain[i].block.povHeight <= chain[j].block.povHeight
  }

  /** The link belongs to the chain of (account, token). */
  ghost predicate Belongs(l: Link, account: Address, token: Token) {
    && l.block.address == l.meta.belongTo == account
    && l.block.token == l.meta.typ == token
    && l.meta.header == OfBlock(l.block)
  }

  ghost predicate ValidChain(chain: Chain, account: Address, token: Token) {
    && Nondecreasing(chain)
    && (forall i :: 0 <= i < |chain| ==> Belongs(chain[i], account, token))
    && (forall i :: 0 <= i < |chain| ==> Follows(chain, i))
  }

  /** Block i names the block before it. */
  ghost predicate Follows(chain: Chain, i: int)
    requires 0 <= i < |chain|
  {
    chain[i].block.previous == if i == 0 then ZeroHash else OfBlock(chain[i - 1].block)
  }

  /** The record of the last block of exactly this height. */
  function LastAt(chain: Chain, height: nat): Option<TokenMeta> {
    if chain == [] then None
    else
      var last := chain[|chain| - 1];
      if last.block.povHeight == height then Some(last.meta) else LastAt(chain[..|chain| - 1], height)
  }

  /** The table holds the chain's history. */
  ghost predicate Represents(t: Table, account: Address, token: Token, chain: Chain) {
    forall h: nat :: Lookup(t, ByHeight(account, h, token)) == LastAt(chain, h)
  }

  /** Searching down from a height gives what replaying the chain up to that height gives. */
  lemma {:induction false} SearchIsReplay(t: Table, account: Address, token: Token, chain: Chain, height: nat)
    requires Represents(t, account, token, chain) && Nondecreasing(chain)
    ensures Search(t, account, token, height) == LastUpTo(chain, height)
    decreases height
  {
    assert Lookup(t, ByHeight(account, height, token)) == LastAt(chain, height);
    if LastAt(chain, height).Some? {
      LastAtIsLastUpTo(chain, height);
    } else {
      NoneAt(chain, height);
      if height > 0 {
        SearchIsReplay(t, account, token, chain, height - 1);
      }
    }
  }

  lemma {:induction false} LastAtIsLastUpTo(chain: Chain, height: nat)
    requires Nondecreasing(chain) && LastAt(chain, height).Some?
    ensures LastUpTo(chain, height) == LastAt(chain, height)
    decreases |chain|
  {
    var n := |chain| - 1;
    if chain[n].block.povHeight != height {
      LastAtOccurs(chain[..n], height);
      LastAtIsLastUpTo(chain[..n], height);
    }
  }

  lemma {:induction false} LastAtOccurs(chain: Chain, height: nat)
    ensures LastAt(chain, height).Some? ==> exists i :: 0 <= i < |chain| && chain[i].block.povHeight == height
    decreases |chain|
  {
    if chain != [] {
      LastAtOccurs(chain[..|chain| - 1], height);
    }
  }

  /** A height at which no block sits can be lowered by one. */
  lemma {:induction false} NoneAt(chain: Chain, height: nat)
    requires LastAt(chain, height).None?
    ensures LastUpTo(chain, height) == if height == 0 then None else LastUpTo(chain, height - 1)
    decreases |chain|
  {
    if chain != [] {
      NoneAt(chain[..|chain| - 1], height);
    }
  }

  // ---- Appending and rolling back heads ----

  type Chains = map<(Address, Token), Chain>

  function ChainOf(chains: Chains, account: Address, token: Token): Chain {
    if (account, token) in chains then chains[(account, token)] else []
  }

  datatype Op =
    | Append(link: Link)
    | Rollback(account: Address, token: Token, known: set<Hash>)  // known: the blocks GetStateBlock finds
  {
    function Account(): Address { if Append? then link.block.address else account }
    function TokenOf(): Token { if Append? then link.block.token else token }
  }

  /** The record handed to UpdateAccountMetaHistory when the head is rolled back. */
  function RestoredMeta(chain: Chain): TokenMeta
    requires chain != []
  {
    if |chain| > 1 then chain[|chain| - 2].meta else chain[0].meta
  }

  /** The batch of an operation; None when it is not an operation on the head of its chain, or fails. */
  function OpBatch(chains: Chains, op: Op): Option<Batch> {
    var chain := ChainOf(chains, op.Account(), op.TokenOf());
    match op
    case Append(l) => Some(AddHistory(l.meta, l.block))
    case Rollback(_, _, known) =>
      if chain == [] then None else UpdateHistory(RestoredMeta(chain), chain[|chain| - 1].block, known)
  }

  function OpChains(chains: Chains, op: Op): Chains
    requires op.Rollback? ==> ChainOf(chains, op.account, op.token) != []
  {
    var chain := ChainOf(chains, op.Account(), op.TokenOf());
    chains[(op.Account(), op.TokenOf()) := if op.Append? then chain + [op.link] else chain[..|chain| - 1]]
  }

  /** An append extends a valid chain; a rollback is one that succeeds. */
  ghost predicate Legal(chains: Chains, op: Op) {
    var chain := ChainOf(chains, op.Account(), op.TokenOf());
    match op
    case Append(l) => ValidChain(chain + [l], op.Account(), op.TokenOf())
    case Rollback(_, _, _) => OpBatch(chains, op).Some?
  }

  ghost predicate AllValid(chains: Chains) {
    forall a: Address, k: Token :: ValidChain(ChainOf(chains, a, k), a, k)
  }

  ghost predicate AllRepresented(t: Table, chains: Chains) {
    forall a: Address, k: Token :: Represents(t, a, k, ChainOf(chains, a, k))
  }

  lemma {:induction false} LastAtAppend(chain: Chain, l: Link, h: nat)
    ensures LastAt(chain + [l], h) == if l.block.povHeight == h then Some(l.meta) else LastAt(chain, h)
  {
    assert (chain + [l])[..|chain|] == chain;
  }

  /** Once the head leaves its height, that height has no block left unless the block before shares it. */
  lemma {:induction false} LastAtRolledBack(chain: Chain)
    requires Nondecreasing(chain) && chain != []
    ensures var n, h := |chain| - 1, chain[|chain| - 1].block.povHeight;
            LastAt(chain[..n], h) ==
              if n > 0 && chain[n - 1].block.povHeight == h then Some(chain[n - 1].meta) else None
  {
    var n, h := |chain| - 1, chain[|chain| - 1].block.povHeight;
    if !(n > 0 && chain[n - 1].block.povHeight == h) {
      LastAtOccurs(chain[..n], h);
      forall i | 0 <= i < n ensures chain[..n][i].block.povHeight != h {
        assert chain[i].block.povHeight <= chain[n - 1].block.povHeight;
      }
    }
  }

  lemma {:induction false} AppendRepresents(t: Table, chain: Chain, l: Link, account: Address, token: Token, a: Address, k: Token)
    requires Belongs(l, account, token) && Represents(t, a, k, chain)
    ensures Represents(Apply(t, AddHistory(l.meta, l.block)), a, k,
                       if (a, k) == (account, token) then chain + [l] else chain)
  {
    forall h: nat
      ensures Lookup(Apply(t, AddHistory(l.meta, l.block)), ByHeight(a, h, k)) ==
              LastAt(if (a, k) == (account, token) then chain + [l] else chain, h)
    {
      ApplyLookup(t, AddHistory(l.meta, l.block), ByHeight(a, h, k));
      LastAtAppend(chain, l, h);
      assert Lookup(t, ByHeight(a, h, k)) == LastAt(chain, h);
    }
  }

  /** Rolling the head back writes, at its height, the record the shorter chain has there, or a tombstone. */
  lemma {:induction false} RollbackBatch(chain: Chain, known: set<Hash>, account: Address, token: Token)
    requires ValidChain(chain, account, token) && chain != []
    requires UpdateHistory(RestoredMeta(chain), chain[|chain| - 1].block, known).Some?
    ensures var n, b := |chain| - 1, chain[|chain| - 1].block;
            var left := LastAt(chain[..n], b.povHeight);
            UpdateHistory(RestoredMeta(chain), b, known).value ==
            map[ByHash(OfBlock(b)) := Deleted,
                ByHeight(account, b.povHeight, token) := if left.Some? then Live(left.value) else Deleted]
  {
    var n := |chain| - 1;
    LastAtRolledBack(chain);
    assert Belongs(chain[n], account, token) && Follows(chain, n);
  }

  lemma {:induction false} RollbackRepresents(t: Table, chain: Chain, known: set<Hash>, account: Address, token: Token,
                                              a: Address, k: Token, other: Chain)
    requires ValidChain(chain, account, token) && chain != []
    requires UpdateHistory(RestoredMeta(chain), chain[|chain| - 1].block, known).Some?
    requires (a, k) == (account, token) ==> other == chain
    requires Represents(t, a, k, other)
    ensures Represents(Apply(t, UpdateHistory(RestoredMeta(chain), chain[|chain| - 1].block, known).value), a, k,
                       if (a, k) == (account, token) then chain[..|chain| - 1] else other)
  {
    var n := |chain| - 1;
    var m := UpdateHistory(RestoredMeta(chain), chain[n].block, known).value;
    RollbackBatch(chain, known, account, token);
    assert chain == chain[..n] + [chain[n]];
    forall h: nat
      ensures Lookup(Apply(t, m), ByHeight(a, h, k)) ==
              LastAt(if (a, k) == (account, token) then chain[..n] else other, h)
    {
      ApplyLookup(t, m, ByHeight(a, h, k));
      LastAtAppend(chain[..n], chain[n], h);
      assert Lookup(t, ByHeight(a, h, k)) == LastAt(other, h);
    }
  }

  lemma {:induction false} ValidPrefix(chain: Chain, account: Address, token: Token, n: nat)
    requires ValidChain(chain, account, token) && n <= |chain|
    ensures ValidChain(chain[..n], account, token)
  {
    var init := chain[..n];
    forall i | 0 <= i < n ensures Follows(init, i) {
      assert Follows(chain, i);
    }
  }

  lemma {:induction false} OpKeepsValid(chains: Chains, op: Op)
    requires AllValid(chains) && Legal(chains, op)
    ensures AllValid(OpChains(chains, op))
  {
    var account, token := op.Account(), op.TokenOf();
    var chain, chains' := ChainOf(chains, account, token), OpChains(chains, op);
    forall a: Address, k: Token ensures ValidChain(ChainOf(chains', a, k), a, k) {
      assert ValidChain(ChainOf(chains, a, k), a, k);
      if op.Rollback? && (a, k) == (account, token) {
        ValidPrefix(chain, account, token, |chain| - 1);
      }
    }
  }

  lemma {:induction false} OpKeepsHistory(t: Table, chains: Chains, op: Op)
    requires AllValid(chains) && AllRepresented(t, chains) && Legal(chains, op)
    ensures OpBatch(chains, op).Some?
    ensures AllRepresented(Apply(t, OpBatch(chains, op).value), OpChains(chains, op))
  {
    var account, token := op.Account(), op.TokenOf();
    var chain, chains' := ChainOf(chains, account, token), OpChains(chains, op);
    assert ValidChain(chain, account, token);
    forall a: Address, k: Token ensures Represents(Apply(t, OpBatch(chains, op).value), a, k, ChainOf(chains', a, k)) {
      var other := ChainOf(chains, a, k);
      assert Represents(t, a, k, other);
      match op
      case Append(l) =>
        assert (chain + [l])[|chain|] == l;
        AppendRepresents(t, other, l, account, token, a, k);
      case Rollback(_, _, known) =>
        RollbackRepresents(t, chain, known, account, token, a, k, other);
    }
  }

  // ---- Runs ----

  ghost predicate LegalOps(chains: Chains, ops: seq<Op>)
    requires AllValid(chains)
    decreases |ops|, 0
  {
    ops == [] || (LegalOps(chains, ops[..|ops| - 1]) && Legal(ChainsAfter(chains, ops[..|ops| - 1]), ops[|ops| - 1]))
  }

  ghost function ChainsAfter(chains: Chains, ops: seq<Op>): (r: Chains)
    requires AllValid(chains) && LegalOps(chains, ops)
    decreases |ops|, 1
  {
    if ops == [] then chains else OpChains(ChainsAfter(chains, ops[..|ops| - 1]), ops[|ops| - 1])
  }

  /** The batches the operations commit, in order. */
  ghost function Batches(chains: Chains, ops: seq<Op>): seq<Batch>
    requires AllValid(chains) && LegalOps(chains, ops)
  {
    if ops == [] then []
    else
      var init, last := ops[..|ops| - 1], ops[|ops| - 1];
      var before := ChainsAfter(chains, init);
      Batches(chains, init) + if OpBatch(before, last).Some? then [OpBatch(before, last).value] else []
  }

  lemma {:induction false} OpsKeepHistory(store: Table, chains: Chains, ops: seq<Op>)
    requires AllValid(chains) && AllRepresented(store, chains) && LegalOps(chains, ops)
    ensures AllValid(ChainsAfter(chains, ops))
    ensures AllRepresented(Apply(store, Fold(Batches(chains, ops))), ChainsAfter(chains, ops))
    decreases |ops|
  {
    if ops == [] {
      ApplyEmpty(store);
    } else {
      var init, last := ops[..|ops| - 1], ops[|ops| - 1];
      OpsKeepHistory(store, chains, init);
      var before := ChainsAfter(chains, init);
      OpKeepsValid(before, last);
      OpKeepsHistory(Apply(store, Fold(Batches(chains, init))), before, last);
      var m := OpBatch(before, last).value;
      var bs := Batches(chains, init);
      assert (bs + [m])[..|bs|] == bs;
      ApplyApply(store, Fold(bs), m);
    }
  }

  // ---- The entries by block hash ----

  /** The record of the block with this hash. */
  function MetaIn(chain: Chain, h: Hash): Option<TokenMeta> {
    if chain == [] then None
    else
      var last := chain[|chain| - 1];
      if OfBlock(last.block) == h then Some(last.meta) else MetaIn(chain[..|chain| - 1], h)
  }

  function MetaOf(chains: Chains, h: Hash): Option<TokenMeta> {
    if h.OfBlock? then MetaIn(ChainOf(chains, h.block.address, h.block.token), h) else None
  }

  /** The entry of a hash is the record of that block on its chain, and there is no other. */
  ghost predicate AllHashed(t: Table, chains: Chains) {
    forall h: Hash :: Lookup(t, ByHash(h)) == MetaOf(chains, h)
  }

  /** Number of blocks up to and including this one. */
  function Level(h: Hash): nat {
    if h.OfBlock? then 1 + Level(h.block.previous) else 0
  }

  lemma {:induction false} LevelAt(chain: Chain, account: Address, token: Token, i: nat)
    requires ValidChain(chain, account, token) && i < |chain|
    ensures Level(OfBlock(chain[i].block)) == i + 1
    decreases i
  {
    assert Follows(chain, i);
    if i > 0 {
      LevelAt(chain, account, token, i - 1);
    }
  }

  lemma {:induction false} MetaInOccurs(chain: Chain, h: Hash)
    ensures MetaIn(chain, h).Some? ==> exists i :: 0 <= i < |chain| && OfBlock(chain[i].block) == h
    decreases |chain|
  {
    if chain != [] {
      MetaInOccurs(chain[..|chain| - 1], h);
    }
  }

  /** Without its head the chain does not know the head's hash. */
  lemma {:induction false} HeadOnlyOnce(chain: Chain, account: Address, token: Token)
    requires ValidChain(chain, account, token) && chain != []
    ensures MetaIn(chain[..|chain| - 1], OfBlock(chain[|chain| - 1].block)) == None
  {
    var n := |chain| - 1;
    MetaInOccurs(chain[..n], OfBlock(chain[n].block));
    LevelAt(chain, account, token, n);
    forall i | 0 <= i < n ensures OfBlock(chain[..n][i].block) != OfBlock(chain[n].block) {
      LevelAt(chain, account, token, i);
    }
  }

  lemma {:induction false} MetaOfAppended(chains: Chains, l: Link, h: Hash)
    ensures MetaOf(OpChains(chains, Append(l)), h) == if h == OfBlock(l.block) then Some(l.meta) else MetaOf(chains, h)
  {
    var chain := ChainOf(chains, l.block.address, l.block.token);
    assert (chain + [l])[..|chain|] == chain;
  }

  lemma {:induction false} AppendHashes(t: Table, chains: Chains, l: Link)
    requires AllHashed(t, chains)
    ensures AllHashed(Apply(t, AddHistory(l.meta, l.block)), OpChains(chains, Append(l)))
  {
    var m := AddHistory(l.meta, l.block);
    forall h: Hash ensures Lookup(Apply(t, m), ByHash(h)) == MetaOf(OpChains(chains, Append(l)), h) {
      MetaOfAppended(chains, l, h);
      ApplyLookup(t, m, ByHash(h));
      assert Lookup(t, ByHash(h)) == MetaOf(chains, h);
    }
  }

  lemma {:induction false} RollbackHashes(t: Table, chains: Chains, op: Op)
    requires AllValid(chains) && AllHashed(t, chains) && op.Rollback? && Legal(chains, op)
    ensures AllHashed(Apply(t, OpBatch(chains, op).value), OpChains(chains, op))
  {
    var chain, m := ChainOf(chains, op.account, op.token), OpBatch(chains, op).value;
    assert ValidChain(chain, op.account, op.token);
    var n := |chain| - 1;
    assert Belongs(chain[n], op.account, op.token);
    HeadOnlyOnce(chain, op.account, op.token);
    RollbackBatch(chain, op.known, op.account, op.token);
    forall h: Hash ensures Lookup(Apply(t, m), ByHash(h)) == MetaOf(OpChains(chains, op), h) {
      ApplyLookup(t, m, ByHash(h));
      assert Lookup(t, ByHash(h)) == MetaOf(chains, h);
    }
  }

  lemma {:induction false} OpsKeepHashes(store: Table, chains: Chains, ops: seq<Op>)
    requires AllValid(chains) && AllHashed(store, chains) && LegalOps(chains, ops)
    ensures AllValid(ChainsAfter(chains, ops))
    ensures AllHashed(Apply(store, Fold(Batches(chains, ops))), ChainsAfter(chains, ops))
    decreases |ops|
  {
    if ops == [] {
      ApplyEmpty(store);
    } else {
      var init, last := ops[..|ops| - 1], ops[|ops| - 1];
      OpsKeepHashes(store, chains, init);
      var before, bs := ChainsAfter(chains, init), Batches(chains, init);
      OpKeepsValid(before, last);
      if last.Append? {
        AppendHashes(Apply(store, Fold(bs)), before, last.link);
      } else {
        RollbackHashes(Apply(store, Fold(bs)), before, last);
      }
      var m := OpBatch(before, last).value;
      assert (bs + [m])[..|bs|] == bs;
      ApplyApply(store, Fold(bs), m);
    }
  }

  /** After any run, reading by a block's hash gives the record the block left, for exactly the blocks of the chains. */
  lemma HashesAgreeWithChains(store: Table, chains: Chains, ops: seq<Op>, run: seq<Action<Key, TokenMeta>>, h: Hash)
    requires AllValid(chains) && AllHashed(store, chains) && LegalOps(chains, ops)
    requires ValidRun(Initial(store), run) && Commits(run) == Batches(chains, ops)
    ensures Lookup(View(Exec(Initial(store), run)), ByHash(h)) == MetaOf(ChainsAfter(chains, ops), h)
  {
    RunRefines(store, run);
    OpsKeepHashes(store, chains, ops);
  }

  /** A rollback fails exactly when the block names a previous one that is not found. */
  lemma UpdateHistorySucceedsIff(tm: TokenMeta, b: StateBlock, known: set<Hash>)
    ensures UpdateHistory(tm, b, known).Some? <==> b.previous == ZeroHash || (b.previous.OfBlock? && b.previous in known)
  {
  }

  /**
   The history index agrees with replay.  Take any run of the ring whose commits are head appends
   and head rollbacks, in any order and on any accounts and tokens, with rotations and flushes
   anywhere between.  Then the downward search from every height returns the record of the last
   block of the chain with at most that height, and nothing exactly when there is none.
   */
  lemma {:induction false} HistoryAgreesWithReplay(store: Table, chains: Chains, ops: seq<Op>, run: seq<Action<Key, TokenMeta>>,
                                account: Address, token: Token, height: nat)
    requires AllValid(chains) && AllRepresented(store, chains) && LegalOps(chains, ops)
    requires ValidRun(Initial(store), run) && Commits(run) == Batches(chains, ops)
    ensures Search(View(Exec(Initial(store), run)), account, token, height) ==
            LastUpTo(ChainOf(ChainsAfter(chains, ops), account, token), height)
  {
    RunRefines(store, run);
    OpsKeepHistory(store, chains, ops);
    var after := ChainsAfter(chains, ops);
    assert ValidChain(ChainOf(after, account, token), account, token);
    SearchIsReplay(View(Exec(Initial(store), run)), account, token, ChainOf(after, account, token), height);
  }

  /**
   Nothing in the ledger forces heights to grow along a chain.  Appending a block below the head's
   height breaks the agreement, and appending at or above it keeps it.
   */
  lemma {:induction false} AppendAgreesIff(t: Table, account: Address, token: Token, chain: Chain, l: Link)
    requires ValidChain(chain, account, token) && chain != [] && Represents(t, account, token, chain)
    requires Belongs(l, account, token) && l.block.previous == OfBlock(chain[|chain| - 1].block)
    ensures (forall h: nat :: Search(Apply(t, AddHistory(l.meta, l.block)), account, token, h) == LastUpTo(chain + [l], h))
            <==> l.block.povHeight >= chain[|chain| - 1].block.povHeight
  {
    var t', chain' := Apply(t, AddHistory(l.meta, l.block)), chain + [l];
    var head := chain[|chain| - 1];
    AppendRepresents(t, chain, l, account, token, account, token);
    if l.block.povHeight >= head.block.povHeight {
      assert forall i :: 0 <= i < |chain| ==> chain[i].block.povHeight <= head.block.povHeight;
      forall h: nat ensures Search(t', account, token, h) == LastUpTo(chain', h) {
        SearchIsReplay(t', account, token, chain', h);
      }
    } else {
      var h := head.block.povHeight;
      assert chain'[..|chain|] == chain;
      assert Lookup(t', ByHeight(account, h, token)) == LastAt(chain', h) == Some(head.meta);
      assert Search(t', account, token, h) == Some(head.meta);
      assert LastUpTo(chain', h) == Some(l.meta);
      NotOwnPrevious(l.block);
      assert Belongs(head, account, token);
    }
  }

  function SampleLink(height: nat, previous: Hash): Link {
    var b := StateBlock(PlainState, 0, OfKey(1), 0, 0, 0, 0, 0, previous, ZeroHash, ZeroHash, height, 0);
    Link(b, TokenMeta(0, OfBlock(b), ZeroHash, ZeroHash, 0, OfKey(1), 0, 0))
  }

  /** A block of height 3 after one of height 5: asked for height 5, the search returns the older record. */
  lemma LowerBlockIsMissed()
    ensures var older := SampleLink(5, ZeroHash);
            var newer := SampleLink(3, OfBlock(older.block));
            var t := Apply(Apply(map[], AddHistory(older.meta, older.block)), AddHistory(newer.meta, newer.block));
            && Search(t, OfKey(1), 0, 5) == Some(older.meta) && LastUpTo([older, newer], 5) == Some(newer.meta)
            && older.meta != newer.meta
  {
    var older := SampleLink(5, ZeroHash);
    var newer := SampleLink(3, OfBlock(older.block));
    assert older.block != newer.block;
  }

  // ---- The search loop and the cache writes ----

  /** Records are stored under their own account and token. */
  ghost predicate WellTyped(t: Table) {
    forall a: Address, h: nat, k: Token :: ByHeight(a, h, k) in t ==> t[ByHeight(a, h, k)].typ == k
  }

  /** The keys under the prefix (account, height), compared by their canonical forms. */
  function At<F>(account: Address, height: nat, fold: Key -> F): MergedIteration.Query<Key, F> {
    MergedIteration.Query((k: Key) => k.ByHeight? && k.account == account && k.height == height, fold)
  }

  /** No other token that EqualFold takes for this one hides the record of this height. */
  ghost predicate NotHidden<F>(s: State<Key, TokenMeta>, account: Address, token: Token, h: nat, fold: Key -> F)
    requires WellFormed(s)
  {
    forall k': Key, b: nat :: !MergedIteration.Hides(s, At(account, h, fold), ByHeight(account, h, token), k', b)
  }

  /** The record the search is after, if there is one, is not hidden. */
  ghost predicate SearchedNotHidden<F>(s: State<Key, TokenMeta>, account: Address, token: Token, height: nat, fold: Key -> F)
    requires WellFormed(s)
  {
    if ByHeight(account, height, token) in View(s) then NotHidden(s, account, token, height, fold)
    else height > 0 ==> SearchedNotHidden(s, account, token, height - 1, fold)
  }

  /** Among the records of one height, the last one met that has the token. */
  method PickToken(calls: seq<(Key, TokenMeta)>, token: Token) returns (r: Option<TokenMeta>)
    ensures r == LastOfToken(calls, token)
  {
    r := None;
    var i := 0;
    while i < |calls|
      invariant 0 <= i <= |calls| && r == LastOfToken(calls[..i], token)
    {
      assert calls[..i + 1][..i] == calls[..i];
      if calls[i].1.typ == token {
        r := Some(calls[i].1);
      }
      i := i + 1;
    }
    assert calls[..i] == calls;
  }

  /** The last record of the token among those visited. */
  function LastOfToken(calls: seq<(Key, TokenMeta)>, token: Token): Option<TokenMeta> {
    if calls == [] then None
    else if calls[|calls| - 1].1.typ == token then Some(calls[|calls| - 1].1)
    else LastOfToken(calls[..|calls| - 1], token)
  }

  /** There is one exactly when a record of the token was visited. */
  lemma {:induction false} LastOfTokenIs(calls: seq<(Key, TokenMeta)>, token: Token)
    ensures LastOfToken(calls, token) == None ==> forall c :: c in calls ==> c.1.typ != token
    ensures LastOfToken(calls, token).Some? ==>
              exists c :: c in calls && c.1 == LastOfToken(calls, token).value && c.1.typ == token
    decreases |calls|
  {
    if calls != [] && calls[|calls| - 1].1.typ != token {
      LastOfTokenIs(calls[..|calls| - 1], token);
    } else if calls != [] {
      assert calls[|calls| - 1] in calls;
    }
  }

  /** What the iteration of one height finds, in the given orders of the maps. */
  ghost function Met<F>(s: State<Key, TokenMeta>, orders: seq<seq<Key>>, storeOrder: seq<Key>, account: Address,
                        token: Token, h: nat, fold: Key -> F): Option<TokenMeta>
    requires WellFormed(s) && Orders(s, orders, storeOrder)
  {
    LastOfToken(MergedIteration.Calls(s, orders, storeOrder, At(account, h, fold)), token)
  }

  /** These are orders of the maps the iteration walks. */
  ghost predicate Orders(s: State<Key, TokenMeta>, orders: seq<seq<Key>>, storeOrder: seq<Key>)
    requires WellFormed(s)
  {
    && MergedIteration.AllEnumerate(orders, MergedIteration.Layers(s, s.writeIndex))
    && MergedIteration.Enumerates(storeOrder, s.store)
  }

  /** Whatever the folding, one height yields the token's record of that height or nothing: nothing if the record is not called back. */
  lemma {:induction false} MetIs<F>(s: State<Key, TokenMeta>, orders: seq<seq<Key>>, storeOrder: seq<Key>, account: Address,
                 token: Token, h: nat, fold: Key -> F)
    requires WellFormed(s) && WellTyped(View(s)) && Orders(s, orders, storeOrder)
    ensures var k, calls := ByHeight(account, h, token), MergedIteration.Calls(s, orders, storeOrder, At(account, h, fold));
            Met(s, orders, storeOrder, account, token, h, fold) ==
            if k in View(s) && (k, View(s)[k]) in calls then Some(View(s)[k]) else None
  {
    var k, calls := ByHeight(account, h, token), MergedIteration.Calls(s, orders, storeOrder, At(account, h, fold));
    MergedIteration.CallsAreSound(s, orders, storeOrder, At(account, h, fold));
    LastOfTokenIs(calls, token);
    var r := LastOfToken(calls, token);
    if r.Some? {
      var c :| c in calls && c.1 == r.value && c.1.typ == token;
      assert c.0.ByHeight? && c.0 == k;
    }
  }

  /** The iteration of one height finds the token's record, in every order of the maps, exactly when the record is not hidden. */
  lemma {:induction false} HeightIsSearchedIff<F>(s: State<Key, TokenMeta>, account: Address, token: Token, h: nat, fold: Key -> F)
    requires WellFormed(s) && WellTyped(View(s))
    ensures (forall orders, storeOrder :: Orders(s, orders, storeOrder) ==>
               Met(s, orders, storeOrder, account, token, h, fold) == Lookup(View(s), ByHeight(account, h, token)))
            <==> NotHidden(s, account, token, h, fold)
  {
    var k, q := ByHeight(account, h, token), At(account, h, fold);
    if NotHidden(s, account, token, h, fold) {
      forall orders, storeOrder | Orders(s, orders, storeOrder)
        ensures Met(s, orders, storeOrder, account, token, h, fold) == Lookup(View(s), k)
      {
        MetUnhidden(s, orders, storeOrder, account, token, h, fold);
      }
    } else {
      var k': Key, b: nat :| MergedIteration.Hides(s, q, k, k', b);
      var orders, storeOrder := MergedIteration.HiddenKeyIsMissed(s, q, k, k', b);
      MetIs(s, orders, storeOrder, account, token, h, fold);
      assert Orders(s, orders, storeOrder) && Met(s, orders, storeOrder, account, token, h, fold) == None;
    }
  }

  lemma {:induction false} MetUnhidden<F>(s: State<Key, TokenMeta>, orders: seq<seq<Key>>, storeOrder: seq<Key>, account: Address,
                       token: Token, h: nat, fold: Key -> F)
    requires WellFormed(s) && WellTyped(View(s)) && Orders(s, orders, storeOrder)
    requires NotHidden(s, account, token, h, fold)
    ensures Met(s, orders, storeOrder, account, token, h, fold) == Lookup(View(s), ByHeight(account, h, token))
  {
    MetIs(s, orders, storeOrder, account, token, h, fold);
    if ByHeight(account, h, token) in View(s) {
      MergedIteration.LiveKeyIsCalled(s, orders, storeOrder, At(account, h, fold), ByHeight(account, h, token));
    }
  }

  /**
   GetTokenMetaByPovHeight, one prefix iteration per height.  The orders in which the maps are
   walked at each height are parameters; the result does not depend on them unless the record searched
   for is hidden, and even then it is the token's record of some height no greater than the one asked for.
   */
  method GetTokenMetaByPovHeight<F(==)>(
      s: State<Key, TokenMeta>, account: Address, token: Token, height: nat, fold: Key -> F,
      orders: nat -> seq<seq<Key>>, storeOrder: nat -> seq<Key>) returns (r: Option<TokenMeta>)
    requires WellFormed(s) && WellTyped(View(s))
    requires forall h: nat :: Orders(s, orders(h), storeOrder(h))
    ensures SearchedNotHidden(s, account, token, height, fold) ==> r == Search(View(s), account, token, height)
    ensures r.Some? ==> exists h: nat :: h <= height && Lookup(View(s), ByHeight(account, h, token)) == r
    ensures Search(View(s), account, token, height) == None ==> r == None
  {
    var h := height;
    while true
      invariant 0 <= h <= height
      invariant SearchedNotHidden(s, account, token, height, fold) ==>
                  && SearchedNotHidden(s, account, token, h, fold)
                  && Search(View(s), account, token, h) == Search(View(s), account, token, height)
      invariant Search(View(s), account, token, height) == None ==> Search(View(s), account, token, h) == None
      decreases h
    {
      assert Orders(s, orders(h), storeOrder(h));
      var calls, _ := MergedIteration.IteratorObject(s, orders(h), storeOrder(h), At(account, h, fold), (_, _) => false);
      MergedIteration.UntilErrorAll(MergedIteration.Calls(s, orders(h), storeOrder(h), At(account, h, fold)), (_, _) => false);
      r := PickToken(calls, token);
      MetIs(s, orders(h), storeOrder(h), account, token, h, fold);
      if SearchedNotHidden(s, account, token, h, fold) && ByHeight(account, h, token) in View(s) {
        MetUnhidden(s, orders(h), storeOrder(h), account, token, h, fold);
      }
      if r.Some? {
        assert Lookup(View(s), ByHeight(account, h, token)) == r;
        return;
      }
      if h == 0 {
        return;
      }
      h := h - 1;
    }
  }

  method AddAccountMetaHistory(tm: TokenMeta, b: StateBlock, c: Cache<Key, TokenMeta>)
    modifies c`entries
    ensures c.entries == old(c.entries) + AddHistory(tm, b)
  {
    c.Put(ByHash(OfBlock(b)), Live(tm));
    c.Put(ByHeight(tm.belongTo, b.povHeight, tm.typ), Live(tm));
  }

  /** On failure the hash record is already tombstoned in the batch, which BatchUpdate then discards. */
  method UpdateAccountMetaHistory(tm: TokenMeta, b: StateBlock, known: set<Hash>, c: Cache<Key, TokenMeta>) returns (ok: bool)
    modifies c`entries
    ensures ok == UpdateHistory(tm, b, known).Some?
    ensures c.entries == old(c.entries) +
            if ok then UpdateHistory(tm, b, known).value else map[ByHash(OfBlock(b)) := Deleted]
  {
    c.Put(ByHash(OfBlock(b)), Deleted);
    var at := ByHeight(b.address, b.povHeight, b.token);
    if b.previous != ZeroHash {
      if b.previous !in known || !b.previous.OfBlock? {
        return false;
      }
      if b.povHeight != b.previous.block.povHeight {
        c.Put(at, Deleted);
      } else {
        c.Put(at, Live(tm));
      }
    } else {
      c.Put(at, Deleted);
    }
    return true;
  }
}
