/**
 The blocks the ledger generates for a wallet - send, receive, open, change, online - and what
 applying them does to balances and pending amounts.
 */
module Conservation {
  import opened Blocks
  import opened Accounts
  import opened MapSum

  datatype Result<+T> = Ok(value: T) | Err

  datatype Optional<+T> = Nothing | Just(value: T)

  datatype PendingInfo = PendingInfo(source: Address, amount: Balance, typ: Token)

  /** Token records, blocks and pending amounts, as the merged reads return them. */
  datatype Ledger = Ledger(
    metas: map<(Address, Token), TokenMeta>,
    blocks: set<StateBlock>,
    pendings: map<(Address, Hash), PendingInfo>)

  predicate HasBlock(l: Ledger, h: Hash) {
    h.OfBlock? && h.block in l.blocks
  }

  predicate HasAccount(l: Ledger, a: Address) {
    exists k :: k in l.metas && k.0 == a
  }

  /** Everything outside the ledger that a generator consults. */
  datatype Env = Env(
    chainToken: Token,
    povHeight: Optional<nat>,    // height of the latest PoV header, if there is one
    signer: Optional<Address>,   // account of the private key, if one is given
    now: int)

  predicate SignerFits(env: Env, a: Address) {
    env.signer.Nothing? || env.signer.value == a
  }

  // ---- The generators ----

  /** GenerateSendBlock; the draft carries address, token and link (the receiver). */
  function GenerateSend(l: Ledger, env: Env, draft: StateBlock, amount: Balance): Result<StateBlock> {
    var k := (draft.address, draft.token);
    if k !in l.metas then Err
    else
      var tm := l.metas[k];
      if !HasBlock(l, tm.header) || env.povHeight.Nothing? || tm.balance < amount || !SignerFits(env, draft.address) then Err
      else Ok(FillSend(draft, tm, tm.header.block, amount, env.povHeight.value, env.now))
  }

  function FillSend(draft: StateBlock, tm: TokenMeta, prev: StateBlock, amount: Balance, povHeight: nat, now: int): StateBlock {
    draft.(typ := Send, balance := Sub(tm.balance, amount), previous := tm.header, representative := tm.representative,
           timestamp := now, vote := prev.vote, network := prev.network, oracle := prev.oracle,
           storage := prev.storage, povHeight := povHeight)
  }

  /** GenerateReceiveBlock: a receive block, or an open block for an account without the token. */
  function GenerateReceive(l: Ledger, env: Env, send: StateBlock): Result<StateBlock> {
    var hash := OfBlock(send);
    var rx := send.link;
    if send.typ != Send || !HasBlock(l, hash) || !SignerFits(env, rx) || (rx, hash) !in l.pendings then Err
    else
      var info := l.pendings[(rx, hash)];
      if (rx, send.token) in l.metas then
        var tm := l.metas[(rx, send.token)];
        if !HasBlock(l, tm.header) || env.povHeight.Nothing? then Err
        else
          var prev := tm.header.block;
          Ok(StateBlock(Receive, tm.typ, rx, Add(tm.balance, info.amount), prev.vote, prev.network, prev.storage,
                        prev.oracle, tm.header, hash, tm.representative, env.povHeight.value, env.now))
      else if env.povHeight.Nothing? then Err
      else Ok(StateBlock(Open, send.token, rx, info.amount, 0, 0, 0, 0, ZeroHash, hash, send.representative,
                         env.povHeight.value, env.now))
  }

  /** The block that GenerateChangeBlock and GenerateOnlineBlock build on the chain token. */
  function Restate(l: Ledger, env: Env, account: Address, typ: BlockType, rep: Optional<Address>, povHeight: nat): Result<StateBlock> {
    var k := (account, env.chainToken);
    if k !in l.metas || !HasBlock(l, l.metas[k].header) || !SignerFits(env, account) then Err
    else
      var tm := l.metas[k];
      var prev := tm.header.block;
      Ok(StateBlock(typ, tm.typ, account, tm.balance, prev.vote, prev.network, prev.storage, prev.oracle, tm.header,
                    ZeroHash, if rep.Just? then rep.value else tm.representative, povHeight, env.now))
  }

  function GenerateChange(l: Ledger, env: Env, account: Address, rep: Address): Result<StateBlock> {
    if !HasAccount(l, rep) || env.povHeight.Nothing? then Err
    else Restate(l, env, account, Change, Just(rep), env.povHeight.value)
  }

  function GenerateOnline(l: Ledger, env: Env, account: Address, povHeight: nat): Result<StateBlock> {
    Restate(l, env, account, Online, Nothing, povHeight)
  }

  datatype Command =
    | SendTo(draft: StateBlock, amount: Balance)
    | ReceiveFrom(send: StateBlock)
    | ChangeTo(account: Address, rep: Address)
    | GoOnline(account: Address, povHeight: nat)

  function Generate(l: Ledger, env: Env, c: Command): Result<StateBlock> {
    match c
    case SendTo(draft, amount) => GenerateSend(l, env, draft, amount)
    case ReceiveFrom(send) => GenerateReceive(l, env, send)
    case ChangeTo(account, rep) => GenerateChange(l, env, account, rep)
    case GoOnline(account, povHeight) => GenerateOnline(l, env, account, povHeight)
  }

  // ---- Applying a block ----

  /** The token record after block b. */
  function NewMeta(l: Ledger, b: StateBlock): TokenMeta {
    var k := (b.address, b.token);
    if k in l.metas then
      l.metas[k].(header := OfBlock(b), representative := b.representative, balance := b.balance,
                  modified := b.timestamp, blockCount := l.metas[k].blockCount + 1)
    else TokenMeta(b.token, OfBlock(b), b.representative, OfBlock(b), b.balance, b.address, b.timestamp, 1)
  }

  /** The pending table after block b: a send adds an amount, a receive or open removes one. */
  function NewPendings(l: Ledger, b: StateBlock): map<(Address, Hash), PendingInfo> {
    match b.typ
    case Send =>
      if !HasBlock(l, b.previous) then l.pendings
      else
        var info := PendingInfo(b.address, Sub(b.previous.block.balance, b.balance), b.token);
        l.pendings[(b.link, OfBlock(b)) := info]
    case Open => l.pendings - {(b.address, b.link)}
    case Receive => l.pendings - {(b.address, b.link)}
    case _ => l.pendings
  }

  function ApplyBlock(l: Ledger, b: StateBlock): Ledger {
    Ledger(l.metas[(b.address, b.token) := NewMeta(l, b)], l.blocks + {b}, NewPendings(l, b))
  }

  /** CalculateAmount; Nothing: the previous block is missing or the type has no amount. */
  function CalculateAmount(l: Ledger, genesis: set<Hash>, b: StateBlock): Optional<Balance> {
    var prev := if HasBlock(l, b.previous) then Just(b.previous.block.TotalBalance()) else Nothing;
    match b.typ
    case Open => Just(b.TotalBalance())
    case Send => if prev.Nothing? then Nothing else Just(Sub(prev.value, b.TotalBalance()))
    case Receive => if prev.Nothing? then Nothing else Just(Sub(b.TotalBalance(), prev.value))
    case Change => Just(0)
    case Online => Just(0)
    case ContractReward =>
      if b.previous == ZeroHash then Just(b.TotalBalance())
      else if prev.Nothing? then Nothing else Just(Sub(b.TotalBalance(), prev.value))
    case ContractSend =>
      if OfBlock(b) in genesis then Just(b.balance)
      else if prev.Nothing? then Nothing else Just(Sub(prev.value, b.TotalBalance()))
    case _ => Nothing
  }

  // ---- The invariant ----

  predicate ReceivesLink(b: StateBlock) {
    b.typ == Open || b.typ == Receive
  }

  /** A token record names its head block, which agrees with it. */
  ghost predicate MetaOk(l: Ledger, k: (Address, Token)) {
    k in l.metas ==>
      var tm := l.metas[k];
      && tm.typ == k.1 && HasBlock(l, tm.header)
      && var b := tm.header.block; b.address == k.0 && b.token == k.1 && b.balance == tm.balance
  }

  /** A block's previous is in the ledger and is not the head of any chain. */
  ghost predicate BlockOk(l: Ledger, b: StateBlock) {
    b in l.blocks ==>
      && (b.previous.OfBlock? ==> HasBlock(l, b.previous))
      && (forall k :: k in l.metas ==> l.metas[k].header != b.previous)
      && (ReceivesLink(b) ==> HasBlock(l, b.link) && b.link.block.typ == Send)
  }

  /** A pending amount belongs to a send in the ledger that nothing has received yet. */
  ghost predicate PendingOk(l: Ledger, k: (Address, Hash)) {
    k in l.pendings ==>
      && HasBlock(l, k.1) && k.1.block.typ == Send
      && k.1.block.link == k.0 && k.1.block.token == l.pendings[k].typ
      && (forall b :: b in l.blocks && ReceivesLink(b) ==> b.link != k.1)
  }

  ghost predicate ReceivedOnce(l: Ledger) {
    forall b, b' :: b in l.blocks && b' in l.blocks && ReceivesLink(b) && ReceivesLink(b') && b.link == b'.link ==> b == b'
  }

  ghost predicate Valid(l: Ledger) {
    && (forall k :: MetaOk(l, k))
    && (forall b :: BlockOk(l, b))
    && (forall k :: PendingOk(l, k))
    && ReceivedOnce(l)
  }

  // ---- Applying keeps the invariant ----

  /** b extends the head of its chain, or opens a chain; a receiving block has its pending amount. */
  ghost predicate Acceptable(l: Ledger, b: StateBlock) {
    var k := (b.address, b.token);
    && b.typ in {Send, Receive, Open, Change, Online}
    && (b.typ == Open <==> b.previous == ZeroHash)
    && (b.typ == Open ==> k !in l.metas)
    && (b.typ != Open ==> k in l.metas && b.previous == l.metas[k].header)
    && (ReceivesLink(b) ==> (b.address, b.link) in l.pendings)
  }

  lemma GeneratedIsAcceptable(l: Ledger, env: Env, c: Command)
    requires Valid(l) && Generate(l, env, c).Ok?
    ensures Acceptable(l, Generate(l, env, c).value)
  {
    match c
    case SendTo(draft, _) => assert MetaOk(l, (draft.address, draft.token));
    case ReceiveFrom(send) => assert MetaOk(l, (send.link, send.token));
    case ChangeTo(account, _) => assert MetaOk(l, (account, env.chainToken));
    case GoOnline(account, _) => assert MetaOk(l, (account, env.chainToken));
  }

  /** When a generator yields a block, on a consistent ledger. */
  predicate Possible(l: Ledger, env: Env, c: Command) {
    match c
    case SendTo(draft, amount) =>
      && (draft.address, draft.token) in l.metas && amount <= l.metas[(draft.address, draft.token)].balance
      && env.povHeight.Just? && SignerFits(env, draft.address)
    case ReceiveFrom(send) => (send.link, OfBlock(send)) in l.pendings && env.povHeight.Just? && SignerFits(env, send.link)
    case ChangeTo(account, rep) =>
      (account, env.chainToken) in l.metas && HasAccount(l, rep) && env.povHeight.Just? && SignerFits(env, account)
    case GoOnline(account, _) => (account, env.chainToken) in l.metas && SignerFits(env, account)
  }

  lemma GeneratesIff(l: Ledger, env: Env, c: Command)
    requires Valid(l)
    ensures Generate(l, env, c).Ok? <==> Possible(l, env, c)
  {
    match c
    case SendTo(draft, _) => assert MetaOk(l, (draft.address, draft.token));
    case ReceiveFrom(send) =>
      assert MetaOk(l, (send.link, send.token));
      assert PendingOk(l, (send.link, OfBlock(send)));
    case ChangeTo(account, _) => assert MetaOk(l, (account, env.chainToken));
    case GoOnline(account, _) => assert MetaOk(l, (account, env.chainToken));
  }

  /** The account, token and link a command is about. */
  ghost predicate IsAbout(env: Env, c: Command, b: StateBlock) {
    match c
    case SendTo(draft, _) => b.typ == Send && b.address == draft.address && b.token == draft.token && b.link == draft.link
    case ReceiveFrom(send) =>
      b.typ in {Receive, Open} && b.address == send.link && b.token == send.token && b.link == OfBlock(send)
    case ChangeTo(account, _) => b.typ == Change && b.address == account && b.token == env.chainToken && b.link == ZeroHash
    case GoOnline(account, _) => b.typ == Online && b.address == account && b.token == env.chainToken && b.link == ZeroHash
  }

  /** The coins that no command moves. */
  predicate SameStakes(b: StateBlock, head: StateBlock) {
    b.vote == head.vote && b.network == head.network && b.oracle == head.oracle && b.storage == head.storage
  }

  /** The representative asked for; else the one of the account, or of the send that opens it. */
  function RepresentativeAfter(l: Ledger, env: Env, c: Command, k: (Address, Token)): Optional<Address> {
    if c.ChangeTo? then Just(c.rep)
    else if k in l.metas then Just(l.metas[k].representative)
    else if c.ReceiveFrom? then Just(c.send.representative)
    else Nothing
  }

  /**
   Beyond the balance: a generated block is about the account, token and link of its command, names the
   representative asked for or the one there was, and repeats the other coins of the head one by one.
   */
  lemma GeneratedKeepsRest(l: Ledger, env: Env, c: Command)
    requires Valid(l) && Generate(l, env, c).Ok?
    ensures var b := Generate(l, env, c).value;
            var k := (b.address, b.token);
            && IsAbout(env, c, b)
            && RepresentativeAfter(l, env, c, k) == Just(b.representative)
            && (k in l.metas ==> l.metas[k].header.OfBlock? && SameStakes(b, l.metas[k].header.block))
            && (k !in l.metas ==> b.vote == b.network == b.oracle == b.storage == 0)
            && b.timestamp == env.now
            && (if c.GoOnline? then b.povHeight == c.povHeight else env.povHeight == Just(b.povHeight))
  {
    var b := Generate(l, env, c).value;
    match c
    case SendTo(draft, _) => assert MetaOk(l, (draft.address, draft.token));
    case ReceiveFrom(send) => assert MetaOk(l, (send.link, send.token));
    case ChangeTo(account, _) => assert MetaOk(l, (account, env.chainToken));
    case GoOnline(account, _) => assert MetaOk(l, (account, env.chainToken));
  }

  lemma NotOwnLink(b: StateBlock)
    ensures b.link != OfBlock(b)
  {
    if b.link.OfBlock? {
      NotOwnLink(b.link.block);
    }
  }

  /** An acceptable block is new: the head it extends has no child, the send it receives no receiver. */
  lemma AcceptableIsNew(l: Ledger, b: StateBlock)
    requires Valid(l) && Acceptable(l, b)
    ensures b !in l.blocks
  {
    assert BlockOk(l, b);
    assert PendingOk(l, (b.address, b.link));
  }

  lemma MetasKept(l: Ledger, b: StateBlock, k: (Address, Token))
    requires Valid(l) && Acceptable(l, b)
    ensures MetaOk(ApplyBlock(l, b), k)
  {
    assert MetaOk(l, k);
  }

  lemma BlocksKept(l: Ledger, b: StateBlock, x: StateBlock)
    requires Valid(l) && Acceptable(l, b)
    ensures BlockOk(ApplyBlock(l, b), x)
  {
    var l', kb := ApplyBlock(l, b), (b.address, b.token);
    assert BlockOk(l, x);
    AcceptableIsNew(l, b);
    NotOwnPrevious(b);
    assert MetaOk(l, kb);
    assert PendingOk(l, (b.address, b.link));
    forall k | k in l'.metas && x in l'.blocks ensures l'.metas[k].header != x.previous {
      assert MetaOk(l, k);
    }
  }

  lemma PendingsKept(l: Ledger, b: StateBlock, k: (Address, Hash))
    requires Valid(l) && Acceptable(l, b)
    ensures PendingOk(ApplyBlock(l, b), k)
  {
    var l' := ApplyBlock(l, b);
    assert PendingOk(l, k);
    AcceptableIsNew(l, b);
    NotOwnLink(b);
    assert PendingOk(l, (b.address, b.link));
    if k in l'.pendings {
      forall x | x in l'.blocks && ReceivesLink(x) ensures x.link != k.1 {
        assert BlockOk(l, x);
      }
    }
  }

  lemma ApplyKeepsValid(l: Ledger, b: StateBlock)
    requires Valid(l) && Acceptable(l, b)
    ensures Valid(ApplyBlock(l, b))
  {
    var l' := ApplyBlock(l, b);
    forall k ensures MetaOk(l', k) { MetasKept(l, b, k); }
    forall x ensures BlockOk(l', x) { BlocksKept(l, b, x); }
    forall k ensures PendingOk(l', k) { PendingsKept(l, b, k); }
    assert PendingOk(l, (b.address, b.link));
  }

  // ---- Supply ----

  ghost function HeadCoins(l: Ledger, k: (Address, Token)): int {
    if k in l.metas && l.metas[k].header.OfBlock? then l.metas[k].header.block.Coins() else 0
  }

  ghost function HeadBalance(l: Ledger, k: (Address, Token)): int {
    if k in l.metas then l.metas[k].balance else 0
  }

  function PendingAmount(l: Ledger, k: (Address, Hash)): Balance {
    if k in l.pendings then l.pendings[k].amount else 0
  }

  /** Coins at the head of each chain of a token. */
  ghost function CoinMap(l: Ledger, t: Token): map<(Address, Token), int> {
    map k | k in l.metas && k.1 == t :: HeadCoins(l, k)
  }

  /** Spendable balance of each account. */
  ghost function BalanceMap(l: Ledger, t: Token): map<(Address, Token), int> {
    map k | k in l.metas && k.1 == t :: HeadBalance(l, k)
  }

  ghost function PendingMap(l: Ledger, t: Token): map<(Address, Hash), int> {
    map k | k in l.pendings && l.pendings[k].typ == t :: PendingAmount(l, k)
  }

  /** Everything of a token: all coins held, plus everything on its way. */
  ghost function Supply(l: Ledger, t: Token): int {
    Sum(CoinMap(l, t)) + Sum(PendingMap(l, t))
  }

  /** The spendable part of the supply. */
  ghost function Spendable(l: Ledger, t: Token): int {
    Sum(BalanceMap(l, t)) + Sum(PendingMap(l, t))
  }

  /** What applying b adds to the coins and balance of its chain. */
  ghost function CoinGain(l: Ledger, b: StateBlock): int { b.Coins() - HeadCoins(l, (b.address, b.token)) }
  ghost function BalanceGain(l: Ledger, b: StateBlock): int { b.balance - HeadBalance(l, (b.address, b.token)) }

  /** What applying b adds to the pending amounts of its token. */
  ghost function PendingGain(l: Ledger, b: StateBlock): int {
    if b.typ == Send && b.previous.OfBlock? then Sub(b.previous.block.balance, b.balance)
    else if ReceivesLink(b) then -(PendingAmount(l, (b.address, b.link)) as int)
    else 0
  }

  lemma HeadSums(l: Ledger, b: StateBlock, t: Token)
    ensures Sum(CoinMap(ApplyBlock(l, b), t)) == Sum(CoinMap(l, t)) + if t == b.token then CoinGain(l, b) else 0
    ensures Sum(BalanceMap(ApplyBlock(l, b), t)) == Sum(BalanceMap(l, t)) + if t == b.token then BalanceGain(l, b) else 0
  {
    var k, l' := (b.address, b.token), ApplyBlock(l, b);
    if t == b.token {
      assert CoinMap(l', t) == CoinMap(l, t)[k := b.Coins()];
      assert BalanceMap(l', t) == BalanceMap(l, t)[k := b.balance as int];
      SumUpdate(CoinMap(l, t), k, b.Coins());
      SumUpdate(BalanceMap(l, t), k, b.balance);
    } else {
      assert CoinMap(l', t) == CoinMap(l, t) && BalanceMap(l', t) == BalanceMap(l, t);
    }
  }

  lemma PendingSum(l: Ledger, b: StateBlock, t: Token)
    requires Valid(l) && Acceptable(l, b)
    ensures Sum(PendingMap(ApplyBlock(l, b), t)) == Sum(PendingMap(l, t)) + if t == b.token then PendingGain(l, b) else 0
    requires ReceivesLink(b) ==> l.pendings[(b.address, b.link)].typ == b.token
  {
    var l', added, taken := ApplyBlock(l, b), (b.link, OfBlock(b)), (b.address, b.link);
    AcceptableIsNew(l, b);
    assert PendingOk(l, added);
    assert MetaOk(l, (b.address, b.token));
    if b.typ == Send && t == b.token {
      assert PendingMap(l', t) == PendingMap(l, t)[added := PendingGain(l, b)];
      SumUpdate(PendingMap(l, t), added, PendingGain(l, b));
    } else if ReceivesLink(b) {
      assert PendingMap(l', t) == PendingMap(l, t) - {taken};
      SumRemove(PendingMap(l, t), taken);
    } else {
      assert PendingMap(l', t) == PendingMap(l, t);
    }
  }

  /** A chain's coins and one pending amount together do not exceed the supply. */
  lemma PartsWithinSupply(l: Ledger, k: (Address, Token), p: (Address, Hash))
    ensures HeadCoins(l, k) + (if p in l.pendings && l.pendings[p].typ == k.1 then PendingAmount(l, p) else 0) <= Supply(l, k.1)
  {
    SumAtLeast(CoinMap(l, k.1));
    SumAtLeast(PendingMap(l, k.1));
    assert k in l.metas ==> CoinMap(l, k.1)[k] == HeadCoins(l, k);
    assert p in l.pendings && l.pendings[p].typ == k.1 ==> PendingMap(l, k.1)[p] == PendingAmount(l, p);
  }

  /** The amount a command moves. */
  function Moved(l: Ledger, c: Command): Balance {
    match c
    case SendTo(_, amount) => amount
    case ReceiveFrom(send) => PendingAmount(l, (send.link, OfBlock(send)))
    case _ => 0
  }

  /** A send takes the amount out of its chain; a receive or open puts it in; the rest move nothing. */
  ghost function Signed(l: Ledger, c: Command): int {
    if c.SendTo? then -(Moved(l, c) as int) else Moved(l, c)
  }

  lemma ReceivedToken(l: Ledger, env: Env, send: StateBlock)
    requires Valid(l) && GenerateReceive(l, env, send).Ok?
    ensures var b := GenerateReceive(l, env, send).value;
            b.token == send.token == l.pendings[(send.link, OfBlock(send))].typ
  {
    assert MetaOk(l, (send.link, send.token));
    assert PendingOk(l, (send.link, OfBlock(send)));
  }

  /** What a generated block gains, in coins, in balance, and in pending amounts. */
  lemma GeneratedMoves(l: Ledger, env: Env, c: Command)
    requires Valid(l) && Generate(l, env, c).Ok?
    requires Supply(l, Generate(l, env, c).value.token) < TWO_64
    ensures var b := Generate(l, env, c).value;
            CoinGain(l, b) == BalanceGain(l, b) == -PendingGain(l, b) == Signed(l, c)
  {
    var b := Generate(l, env, c).value;
    var k := (b.address, b.token);
    match c
    case SendTo(_, _) => assert MetaOk(l, k);
    case ReceiveFrom(send) =>
      ReceivedToken(l, env, send);
      assert MetaOk(l, k);
      PartsWithinSupply(l, k, (send.link, OfBlock(send)));
    case ChangeTo(account, _) => assert MetaOk(l, (account, env.chainToken));
    case GoOnline(account, _) => assert MetaOk(l, (account, env.chainToken));
  }

  /** Applying a generated block leaves every token's supply, and its spendable part, unchanged. */
  lemma StepConserves(l: Ledger, env: Env, c: Command, t: Token)
    requires Valid(l) && Generate(l, env, c).Ok?
    requires Supply(l, Generate(l, env, c).value.token) < TWO_64
    ensures var l' := ApplyBlock(l, Generate(l, env, c).value);
            Supply(l', t) == Supply(l, t) && Spendable(l', t) == Spendable(l, t)
  {
    var b := Generate(l, env, c).value;
    GeneratedIsAcceptable(l, env, c);
    GeneratedMoves(l, env, c);
    if c.ReceiveFrom? {
      ReceivedToken(l, env, c.send);
    }
    HeadSums(l, b, t);
    PendingSum(l, b, t);
  }

  /** Neither the generated block nor the one before it holds more coins than 64 bits can say. */
  lemma GeneratedFits(l: Ledger, env: Env, c: Command)
    requires Valid(l) && Generate(l, env, c).Ok?
    requires Supply(l, Generate(l, env, c).value.token) < TWO_64
    ensures var b := Generate(l, env, c).value;
            && b.TotalBalance() == b.Coins()
            && (HasBlock(l, b.previous) ==> b.previous.block.TotalBalance() == b.previous.block.Coins())
  {
    var b := Generate(l, env, c).value;
    var k := (b.address, b.token);
    GeneratedIsAcceptable(l, env, c);
    StepConserves(l, env, c, b.token);
    PartsWithinSupply(ApplyBlock(l, b), k, (b.address, b.link));
    PartsWithinSupply(l, k, (b.address, b.link));
    TotalBalanceExact(b);
    assert MetaOk(l, k);
    if b.previous.OfBlock? {
      TotalBalanceExact(b.previous.block);
    }
  }

  /** CalculateAmount of an applied block is the amount it moved. */
  lemma AmountIsMoved(l: Ledger, env: Env, c: Command, genesis: set<Hash>)
    requires Valid(l) && Generate(l, env, c).Ok?
    requires Supply(l, Generate(l, env, c).value.token) < TWO_64
    ensures var b := Generate(l, env, c).value;
            CalculateAmount(ApplyBlock(l, b), genesis, b) == Just(Moved(l, c))
  {
    GeneratedIsAcceptable(l, env, c);
    GeneratedMoves(l, env, c);
    GeneratedFits(l, env, c);
    var b := Generate(l, env, c).value;
    assert MetaOk(l, (b.address, b.token));
  }

  /** The record after a command: what was there, with one more block and the command's amount moved. */
  ghost predicate RecordFollows(l: Ledger, env: Env, c: Command, b: StateBlock, r: TokenMeta) {
    var k := (b.address, b.token);
    && r.header == OfBlock(b) && r.typ == b.token && r.modified == env.now
    && RepresentativeAfter(l, env, c, k) == Just(r.representative)
    && r.balance == HeadBalance(l, k) + Signed(l, c)
    && (k in l.metas ==>
          r.blockCount == l.metas[k].blockCount + 1 && r.openBlock == l.metas[k].openBlock && r.belongTo == l.metas[k].belongTo)
    && (k !in l.metas ==> r.blockCount == 1 && r.openBlock == OfBlock(b) && r.belongTo == b.address)
  }

  /** What applying a generated block does, record by record: one token record, one block, at most one pending amount. */
  lemma StepRecords(l: Ledger, env: Env, c: Command)
    requires Valid(l) && Generate(l, env, c).Ok?
    requires Supply(l, Generate(l, env, c).value.token) < TWO_64
    ensures var b := Generate(l, env, c).value;
            var l', k := ApplyBlock(l, b), (b.address, b.token);
            && k in l'.metas && RecordFollows(l, env, c, b, l'.metas[k])
            && l'.metas - {k} == l.metas - {k} && l'.blocks == l.blocks + {b}
            && match c
               case SendTo(draft, amount) =>
                 && (draft.link, OfBlock(b)) !in l.pendings
                 && l'.pendings == l.pendings[(draft.link, OfBlock(b)) := PendingInfo(draft.address, amount, draft.token)]
               case ReceiveFrom(send) => l'.pendings == l.pendings - {(send.link, OfBlock(send))}
               case _ => l'.pendings == l.pendings
  {
    var b := Generate(l, env, c).value;
    GeneratedIsAcceptable(l, env, c);
    AcceptableIsNew(l, b);
    GeneratedKeepsRest(l, env, c);
    GeneratedMoves(l, env, c);
    assert MetaOk(l, (b.address, b.token));
    assert PendingOk(l, (b.link, OfBlock(b)));
  }

  /** The amount is worked out from the block before. */
  predicate ComparesWithPrevious(genesis: set<Hash>, b: StateBlock) {
    match b.typ
    case Send => true
    case Receive => true
    case ContractReward => b.previous != ZeroHash
    case ContractSend => OfBlock(b) !in genesis
    case _ => false
  }

  /**
   CalculateAmount of any block whose coins fit in 64 bits: what a send or contract send took out of the chain,
   what a receive or reward put in, all of a first block, the balance of a genesis contract send, and nothing
   for a change or online block.  It fails for a missing previous block and for every other type.
   */
  lemma AmountIs(l: Ledger, genesis: set<Hash>, b: StateBlock)
    requires b.Coins() < TWO_64 && (b.previous.OfBlock? ==> b.previous.block.Coins() < TWO_64)
    ensures var a, known := CalculateAmount(l, genesis, b), HasBlock(l, b.previous);
            && (a.Nothing? <==>
                b.typ !in {Open, Send, Receive, Change, Online, ContractReward, ContractSend} ||
                (ComparesWithPrevious(genesis, b) && !known))
            && (a.Just? && ComparesWithPrevious(genesis, b) ==>
                var was, now := b.previous.block.Coins(), b.Coins();
                if b.typ == Send || b.typ == ContractSend then a.value == if now <= was then was - now else 0
                else a.value == if was <= now then now - was else 0)
            && (a.Just? && !ComparesWithPrevious(genesis, b) ==>
                a.value == if b.typ in {Change, Online} then 0 else if b.typ == ContractSend then b.balance else b.Coins())
  {
    TotalBalanceExact(b);
    if b.previous.OfBlock? {
      TotalBalanceExact(b.previous.block);
    }
  }

  // ---- Runs ----

  /** One command: the generated block is applied; a refused command changes nothing. */
  function Step(l: Ledger, env: Env, c: Command): Ledger {
    match Generate(l, env, c)
    case Ok(b) => ApplyBlock(l, b)
    case Err => l
  }

  function Run(l: Ledger, commands: seq<(Env, Command)>): Ledger {
    if commands == [] then l
    else
      var last := commands[|commands| - 1];
      Step(Run(l, commands[..|commands| - 1]), last.0, last.1)
  }

  /**
   Conservation: if no token's supply exceeds 64 bits, then over any run of generated sends, receives,
   opens, changes and onlines, every token's balances plus pendings stay constant, and no send is
   received twice.  Balance arithmetic that overflows to zero never comes into play.
   */
  lemma {:induction false} ValueIsConserved(l: Ledger, commands: seq<(Env, Command)>, t: Token)
    requires Valid(l) && forall k: Token :: Supply(l, k) < TWO_64
    ensures Valid(Run(l, commands)) && ReceivedOnce(Run(l, commands))
    ensures Supply(Run(l, commands), t) == Supply(l, t)
    ensures Spendable(Run(l, commands), t) == Spendable(l, t)
    decreases |commands|
  {
    if commands != [] {
      var init, last := commands[..|commands| - 1], commands[|commands| - 1];
      var before := Run(l, init);
      ValueIsConserved(l, init, t);
      var r := Generate(before, last.0, last.1);
      if r.Ok? {
        ValueIsConserved(l, init, r.value.token);
        GeneratedIsAcceptable(before, last.0, last.1);
        ApplyKeepsValid(before, r.value);
        StepConserves(before, last.0, last.1, t);
      }
    }
  }

  /** Along such a run, CalculateAmount of each block applied is the amount moved. */
  lemma RunAmounts(l: Ledger, commands: seq<(Env, Command)>, genesis: set<Hash>)
    requires Valid(l) && (forall k: Token :: Supply(l, k) < TWO_64) && commands != []
    ensures var before, (env, c) := Run(l, commands[..|commands| - 1]), commands[|commands| - 1];
            Generate(before, env, c).Ok? ==>
              CalculateAmount(Run(l, commands), genesis, Generate(before, env, c).value) == Just(Moved(before, c))
  {
    var init, last := commands[..|commands| - 1], commands[|commands| - 1];
    var before := Run(l, init);
    var r := Generate(before, last.0, last.1);
    if r.Ok? {
      ValueIsConserved(l, init, r.value.token);
      AmountIsMoved(before, last.0, last.1, genesis);
    }
  }

  /**
   Without a bound on the supply, a receive keeps the token's balances plus pendings constant exactly
   when the new balance fits in 64 bits; otherwise Add yields zero and the whole balance is lost.
   */
  lemma ReceiveConservesIff(l: Ledger, env: Env, send: StateBlock)
    requires Valid(l) && GenerateReceive(l, env, send).Ok?
    ensures var l' := ApplyBlock(l, GenerateReceive(l, env, send).value);
            Spendable(l', send.token) == Spendable(l, send.token) <==>
            HeadBalance(l, (send.link, send.token)) + PendingAmount(l, (send.link, OfBlock(send))) < TWO_64
  {
    var b := GenerateReceive(l, env, send).value;
    GeneratedIsAcceptable(l, env, ReceiveFrom(send));
    ReceivedToken(l, env, send);
    HeadSums(l, b, send.token);
    PendingSum(l, b, send.token);
    assert MetaOk(l, (send.link, send.token));
  }

  function SampleBlock(typ: BlockType, address: Address, balance: Balance, link: Hash): StateBlock {
    StateBlock(typ, 0, address, balance, 0, 0, 0, 0, ZeroHash, link, ZeroHash, 0, 0)
  }

  /** One coin received by an account that holds as many as 64 bits can say: everything is gone. */
  lemma OverflowDestroysValue() returns (l: Ledger, env: Env, send: StateBlock)
    ensures Valid(l) && GenerateReceive(l, env, send).Ok?
    ensures HeadBalance(l, (send.link, send.token)) == TWO_64 - 1 && PendingAmount(l, (send.link, OfBlock(send))) == 1
    ensures GenerateReceive(l, env, send).value.balance == 0
    ensures Spendable(ApplyBlock(l, GenerateReceive(l, env, send).value), send.token) != Spendable(l, send.token)
  {
    var rich := OfKey(1);
    var head := SampleBlock(Change, rich, TWO_64 - 1, ZeroHash);
    send := SampleBlock(Send, OfKey(2), 0, rich);
    env := Env(0, Just(0), Nothing, 0);
    l := Ledger(map[(rich, 0) := TokenMeta(0, OfBlock(head), ZeroHash, ZeroHash, TWO_64 - 1, rich, 0, 1)],
                {head, send}, map[(rich, OfBlock(send)) := PendingInfo(OfKey(2), 1, 0)]);
    assert forall k :: MetaOk(l, k);
    assert forall b :: BlockOk(l, b);
    assert forall k :: PendingOk(l, k);
    ReceiveConservesIff(l, env, send);
  }

  /** The draft as the generator fills it, whatever the key. */
  function Drafted(l: Ledger, env: Env, draft: StateBlock, amount: Balance): StateBlock {
    var k := (draft.address, draft.token);
    if k !in l.metas || !HasBlock(l, l.metas[k].header) || env.povHeight.Nothing? || l.metas[k].balance < amount then draft
    else FillSend(draft, l.metas[k], l.metas[k].header.block, amount, env.povHeight.value, env.now)
  }

  /** The caller's block is left as a send generated without a key would be, and as it was when there is none. */
  lemma DraftedIs(l: Ledger, env: Env, draft: StateBlock, amount: Balance)
    ensures Drafted(l, env, draft, amount) ==
            match GenerateSend(l, env.(signer := Nothing), draft, amount)
            case Ok(b) => b
            case Err => draft
  {
  }

  /** GenerateSendBlock fills the caller's block in place; on a key mismatch it is left filled. */
  class Draft {
    var block: StateBlock

    method GenerateSendBlock(l: Ledger, env: Env, amount: Balance) returns (ok: bool)
      modifies this
      ensures ok == GenerateSend(l, env, old(block), amount).Ok?
      ensures ok ==> block == GenerateSend(l, env, old(block), amount).value
      ensures block == Drafted(l, env, old(block), amount)
      ensures !ok && block != old(block) ==> !SignerFits(env, old(block).address)
    {
      var k := (block.address, block.token);
      if k !in l.metas {
        return false;
      }
      var tm := l.metas[k];
      if !HasBlock(l, tm.header) || env.povHeight.Nothing? {
        return false;
      }
      var prev := tm.header.block;
      if tm.balance < amount {
        return false;
      }
      block := block.(typ := Send, balance := Sub(tm.balance, amount), previous := tm.header,
                      representative := tm.representative, timestamp := env.now, vote := prev.vote,
                      network := prev.network, oracle := prev.oracle, storage := prev.storage,
                      povHeight := env.povHeight.value);
      return SignerFits(env, block.address);
    }
  }
}
