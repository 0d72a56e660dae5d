/**
 Representatives' weights.  At start the table is recomputed from all accounts; afterwards each
 processed block of the chain token subtracts the account's old benefit from its old
 representative and adds the new benefit to the new one.
 */
module Representation {
  import opened Ring
  import opened RingTheorems
  import opened Blocks
  import opened MapSum
  import LedgerStore
  import MemoryCache
  import MergedIteration

  /** An account that holds the chain token. */
  datatype Account = Account(rep: Address, balance: Balance, vote: Balance, network: Balance, oracle: Balance, storage: Balance)
  {
    function VoteWeight(): Balance { Add(Add(balance, vote), network) }
    function TotalBalance(): Balance { Add(Add(Add(Add(balance, vote), storage), network), oracle) }
    function Coins(): nat { balance + vote + network + oracle + storage }
  }

  datatype Benefit = Benefit(balance: Balance, vote: Balance, network: Balance, storage: Balance, oracle: Balance, total: Balance)

  const ZERO_BENEFIT := Benefit(0, 0, 0, 0, 0, 0)

  type Table = map<Address, Benefit>
  type Batch = map<Address, Entry<Benefit>>
  type Accounts = map<Address, Account>

  function Get(t: Table, r: Address): Benefit {
    if r in t then t[r] else ZERO_BENEFIT
  }

  // ---- The operations ----

  function Plus(b: Benefit, d: Benefit): Benefit {
    Benefit(Add(b.balance, d.balance), Add(b.vote, d.vote), Add(b.network, d.network),
            Add(b.storage, d.storage), Add(b.oracle, d.oracle), Add(b.total, d.total))
  }

  function Minus(b: Benefit, d: Benefit): Benefit {
    Benefit(Sub(b.balance, d.balance), Sub(b.vote, d.vote), Sub(b.network, d.network),
            Sub(b.storage, d.storage), Sub(b.oracle, d.oracle), Sub(b.total, d.total))
  }

  /** The benefit of an account, as the block processor computes it: the total is all five coins. */
  function BenefitOf(a: Account): Benefit {
    Benefit(a.balance, a.vote, a.network, a.storage, a.oracle, a.TotalBalance())
  }

  function AddRepresentation(s: State<Address, Benefit>, r: Address, d: Benefit, batch: Batch): Batch
    requires WellFormed(s)
  {
    var found := Read(s, batch, r);
    batch[r := Live(Plus(if found.Some? then found.value else ZERO_BENEFIT, d))]
  }

  /** None: the representative is not in the table. */
  function SubRepresentation(s: State<Address, Benefit>, r: Address, d: Benefit, batch: Batch): Option<Batch>
    requires WellFormed(s)
  {
    match Read(s, batch, r)
    case None => None
    case Some(b) => Some(batch[r := Live(Minus(b, d))])
  }

  /** Replacing an account's record, in one batch; an account with the zero representative is not subtracted. */
  function Move(s: State<Address, Benefit>, was: Option<Account>, next: Account): Option<Batch>
    requires WellFormed(s)
  {
    if was.Some? && was.value.rep != ZeroHash then
      match SubRepresentation(s, was.value.rep, BenefitOf(was.value), map[])
      case None => None
      case Some(m) => Some(AddRepresentation(s, next.rep, BenefitOf(next), m))
    else Some(AddRepresentation(s, next.rep, BenefitOf(next), map[]))
  }

  // ---- What the weights should be ----

  datatype Field = OfBalance | OfVote | OfNetwork | OfStorage | OfOracle | OfTotal

  /** The recomputation counts this field. */
  predicate Recomputed(f: Field) { f != OfStorage && f != OfOracle }

  /** An account's part in a field; the total of the recomputation is the vote weight. */
  function Part(a: Account, f: Field): nat {
    match f
    case OfBalance => a.balance
    case OfVote => a.vote
    case OfNetwork => a.network
    case OfStorage => a.storage
    case OfOracle => a.oracle
    case OfTotal => a.balance + a.vote + a.network
  }

  function Value(b: Benefit, f: Field): Balance {
    match f
    case OfBalance => b.balance
    case OfVote => b.vote
    case OfNetwork => b.network
    case OfStorage => b.storage
    case OfOracle => b.oracle
    case OfTotal => b.total
  }

  ghost function Parts(accounts: Accounts, r: Address, f: Field): map<Address, int> {
    map a | a in accounts && accounts[a].rep == r :: Part(accounts[a], f)
  }

  /** The fresh recomputation of one field of one representative. */
  ghost function Share(accounts: Accounts, r: Address, f: Field): int {
    Sum(Parts(accounts, r, f))
  }

  ghost function CoinMap(accounts: Accounts): map<Address, int> {
    map a | a in accounts :: accounts[a].Coins()
  }

  /** All coins together fit in 64 bits. */
  ghost predicate Fits(accounts: Accounts) {
    Sum(CoinMap(accounts)) < TWO_64
  }

  ghost predicate Matches(t: Table, accounts: Accounts, f: Field) {
    forall r: Address :: Value(Get(t, r), f) == Share(accounts, r, f)
  }

  /** Every representative of an account is in the table. */
  ghost predicate Covers(t: Table, accounts: Accounts) {
    forall a :: a in accounts ==> accounts[a].rep in t
  }

  // ---- Sums ----

  lemma ShareRemove(accounts: Accounts, a: Address, r: Address, f: Field)
    ensures Share(accounts - {a}, r, f) ==
            Share(accounts, r, f) - if a in accounts && accounts[a].rep == r then Part(accounts[a], f) else 0
  {
    assert Parts(accounts - {a}, r, f) == Parts(accounts, r, f) - {a};
    SumRemove(Parts(accounts, r, f), a);
  }

  lemma SharePut(accounts: Accounts, a: Address, acc: Account, r: Address, f: Field)
    ensures Share(accounts[a := acc], r, f) ==
            Share(accounts - {a}, r, f) + if acc.rep == r then Part(acc, f) else 0
  {
    var parts := Parts(accounts - {a}, r, f);
    if acc.rep == r {
      assert Parts(accounts[a := acc], r, f) == parts[a := Part(acc, f) as int];
      SumUpdate(parts, a, Part(acc, f));
    } else {
      assert Parts(accounts[a := acc], r, f) == parts;
    }
  }

  lemma {:induction false} ShareWithinCoins(accounts: Accounts, r: Address, f: Field)
    ensures 0 <= Share(accounts, r, f) <= Sum(CoinMap(accounts))
    decreases |accounts|
  {
    if accounts == map[] {
      assert Parts(accounts, r, f) == map[] && CoinMap(accounts) == map[];
    } else {
      var a :| a in accounts;
      assert |(accounts - {a}).Keys| < |accounts.Keys|;
      ShareWithinCoins(accounts - {a}, r, f);
      ShareRemove(accounts, a, r, f);
      assert CoinMap(accounts - {a}) == CoinMap(accounts) - {a};
      SumRemove(CoinMap(accounts), a);
    }
  }

  lemma PartWithinShare(accounts: Accounts, a: Address, f: Field)
    requires a in accounts
    ensures Part(accounts[a], f) <= Share(accounts, accounts[a].rep, f)
  {
    var parts := Parts(accounts, accounts[a].rep, f);
    SumAtLeast(parts);
    assert parts[a] == Part(accounts[a], f);
  }

  // ---- One move ----

  /** The processor's benefit agrees with the recomputation on this field of this account. */
  predicate Faithful(a: Account, f: Field) {
    Value(BenefitOf(a), f) == Part(a, f)
  }

  function Before(accounts: Accounts, a: Address): Option<Account> {
    if a in accounts then Some(accounts[a]) else None
  }

  /** The table after a successful move. */
  function Moved(t: Table, was: Option<Account>, next: Account): Table {
    var t1 := if was.Some? && was.value.rep != ZeroHash
              then t[was.value.rep := Minus(Get(t, was.value.rep), BenefitOf(was.value))] else t;
    t1[next.rep := Plus(Get(t1, next.rep), BenefitOf(next))]
  }

  lemma MoveIsMoved(s: State<Address, Benefit>, was: Option<Account>, next: Account)
    requires WellFormed(s)
    ensures Move(s, was, next).None? <==> was.Some? && was.value.rep != ZeroHash && was.value.rep !in View(s)
    ensures Move(s, was, next).Some? ==> Apply(View(s), Move(s, was, next).value) == Moved(View(s), was, next)
  {
    var t, none: Batch := View(s), map[];
    ApplyEmpty(t);
    var m := none;
    if was.Some? && was.value.rep != ZeroHash {
      ReadIsView(s, none, was.value.rep);
      ApplyPut(t, none, was.value.rep, Live(Minus(Get(t, was.value.rep), BenefitOf(was.value))));
      m := none[was.value.rep := Live(Minus(Get(t, was.value.rep), BenefitOf(was.value)))];
    }
    ReadIsView(s, m, next.rep);
    ApplyPut(t, m, next.rep, Live(Plus(Get(Apply(t, m), next.rep), BenefitOf(next))));
  }

  lemma ValueOfPlus(b: Benefit, d: Benefit, f: Field)
    ensures Value(Plus(b, d), f) == Add(Value(b, f), Value(d, f))
    ensures Value(Minus(b, d), f) == Sub(Value(b, f), Value(d, f))
  {
  }

  /** What the processor's benefit counts beyond the recomputation: oracle and storage, in the total. */
  function Extra(a: Account, f: Field): int { Value(BenefitOf(a), f) - Part(a, f) }

  /**
   Exactly when replacing a's record by acc keeps the field equal to its recomputation, given that it was.
   The old benefit is not subtracted from the zero representative, and a subtraction stops at zero.
   */
  ghost predicate FieldKept(accounts: Accounts, a: Address, acc: Account, f: Field) {
    if a !in accounts then Extra(acc, f) == 0
    else
      var was := accounts[a];
      var share, part, extra := Share(accounts, was.rep, f), Part(was, f), Extra(was, f);
      if was.rep == ZeroHash && acc.rep == ZeroHash then
        part + Extra(acc, f) == 0 || (share == part && Part(acc, f) == 0 && part + Extra(acc, f) >= TWO_64)
      else if was.rep == ZeroHash then part == 0 && Extra(acc, f) == 0
      else if acc.rep != was.rep then (extra == 0 || share == part) && Extra(acc, f) == 0
      else if share >= part + extra then Extra(acc, f) == extra
      else Extra(acc, f) == share - part
  }

  /** Nothing in the single coins; in the total, the oracle and storage coins. */
  lemma ExtraIs(a: Account, f: Field)
    requires a.Coins() < TWO_64
    ensures Extra(a, f) == if f == OfTotal then a.oracle + a.storage else 0
  {
  }

  /** The value of one field of one representative after the move. */
  lemma MovedValue(t: Table, was: Option<Account>, next: Account, r: Address, f: Field)
    ensures var v := Value(Get(t, r), f);
            var v1 := if was.Some? && was.value.rep == r != ZeroHash then Sub(v, Value(BenefitOf(was.value), f)) else v;
            Value(Get(Moved(t, was, next), r), f) ==
            if next.rep == r then Add(v1, Value(BenefitOf(next), f)) else v1
  {
    if was.Some? {
      ValueOfPlus(Get(t, r), BenefitOf(was.value), f);
    }
    var t1 := if was.Some? && was.value.rep != ZeroHash
              then t[was.value.rep := Minus(Get(t, was.value.rep), BenefitOf(was.value))] else t;
    ValueOfPlus(Get(t1, r), BenefitOf(next), f);
  }

  /** What the recomputation says of one representative after the move. */
  lemma ShareAfter(accounts: Accounts, a: Address, acc: Account, r: Address, f: Field)
    requires Fits(accounts[a := acc])
    ensures Share(accounts[a := acc], r, f) ==
            Share(accounts, r, f)
            - (if a in accounts && accounts[a].rep == r then Part(accounts[a], f) else 0)
            + (if acc.rep == r then Part(acc, f) else 0)
    ensures Share(accounts[a := acc], r, f) < TWO_64
    ensures a in accounts && accounts[a].rep == r ==> Part(accounts[a], f) <= Share(accounts, r, f)
  {
    SharePut(accounts, a, acc, r, f);
    ShareRemove(accounts, a, r, f);
    ShareWithinCoins(accounts[a := acc], r, f);
    if a in accounts {
      PartWithinShare(accounts, a, f);
    }
  }

  /** One representative's field is right after the move. */
  ghost predicate RightAt(t: Table, accounts: Accounts, a: Address, acc: Account, r: Address, f: Field) {
    Value(Get(Moved(t, Before(accounts, a), acc), r), f) == Share(accounts[a := acc], r, f)
  }

  lemma UntouchedIsRight(t: Table, accounts: Accounts, a: Address, acc: Account, r: Address, f: Field)
    requires Matches(t, accounts, f) && Fits(accounts[a := acc])
    requires acc.rep != r && (a in accounts ==> accounts[a].rep != r)
    ensures RightAt(t, accounts, a, acc, r, f)
  {
    MovedValue(t, Before(accounts, a), acc, r, f);
    ShareAfter(accounts, a, acc, r, f);
    assert Value(Get(t, r), f) == Share(accounts, r, f);
  }

  /** The representative the account leaves for another one. */
  lemma LeftIsRightIff(t: Table, accounts: Accounts, a: Address, acc: Account, f: Field)
    requires Matches(t, accounts, f) && Fits(accounts) && Fits(accounts[a := acc])
    requires a in accounts && accounts[a].rep != acc.rep
    ensures RightAt(t, accounts, a, acc, accounts[a].rep, f) <==>
            if accounts[a].rep == ZeroHash then Part(accounts[a], f) == 0
            else Extra(accounts[a], f) == 0 || Share(accounts, accounts[a].rep, f) == Part(accounts[a], f)
  {
    var r := accounts[a].rep;
    CoinsFit(accounts, a);
    ExtraIs(accounts[a], f);
    MovedValue(t, Before(accounts, a), acc, r, f);
    ShareAfter(accounts, a, acc, r, f);
    assert Value(Get(t, r), f) == Share(accounts, r, f);
  }

  /** The representative the account comes to from another one, or from nowhere. */
  lemma JoinedIsRightIff(t: Table, accounts: Accounts, a: Address, acc: Account, f: Field)
    requires Matches(t, accounts, f) && Fits(accounts[a := acc])
    requires a in accounts ==> accounts[a].rep != acc.rep
    ensures RightAt(t, accounts, a, acc, acc.rep, f) <==> Extra(acc, f) == 0
  {
    var r := acc.rep;
    CoinsFit(accounts[a := acc], a);
    ExtraIs(acc, f);
    MovedValue(t, Before(accounts, a), acc, r, f);
    ShareAfter(accounts, a, acc, r, f);
    assert Value(Get(t, r), f) == Share(accounts, r, f);
  }

  /** The representative the account keeps. */
  lemma KeptIsRightIff(t: Table, accounts: Accounts, a: Address, acc: Account, f: Field)
    requires Matches(t, accounts, f) && Fits(accounts) && Fits(accounts[a := acc])
    requires a in accounts && accounts[a].rep == acc.rep
    ensures RightAt(t, accounts, a, acc, acc.rep, f) <==> FieldKept(accounts, a, acc, f)
  {
    var r := acc.rep;
    CoinsFit(accounts, a);
    CoinsFit(accounts[a := acc], a);
    ExtraIs(accounts[a], f);
    ExtraIs(acc, f);
    MovedValue(t, Before(accounts, a), acc, r, f);
    ShareAfter(accounts, a, acc, r, f);
    assert Value(Get(t, r), f) == Share(accounts, r, f);
  }

  /** Every move: the field equals its recomputation afterwards if and only if FieldKept. */
  lemma MoveKeepsFieldIff(t: Table, accounts: Accounts, a: Address, acc: Account, f: Field)
    requires Matches(t, accounts, f) && Fits(accounts) && Fits(accounts[a := acc])
    ensures Matches(Moved(t, Before(accounts, a), acc), accounts[a := acc], f) <==> FieldKept(accounts, a, acc, f)
  {
    if a in accounts && accounts[a].rep == acc.rep {
      KeptIsRightIff(t, accounts, a, acc, f);
    } else {
      JoinedIsRightIff(t, accounts, a, acc, f);
      if a in accounts {
        LeftIsRightIff(t, accounts, a, acc, f);
      }
    }
    RightEverywhere(t, accounts, a, acc, f);
  }

  lemma RightEverywhere(t: Table, accounts: Accounts, a: Address, acc: Account, f: Field)
    requires Matches(t, accounts, f) && Fits(accounts[a := acc])
    ensures Matches(Moved(t, Before(accounts, a), acc), accounts[a := acc], f) <==>
            RightAt(t, accounts, a, acc, acc.rep, f) &&
            (a in accounts ==> RightAt(t, accounts, a, acc, accounts[a].rep, f))
  {
    forall r: Address | acc.rep != r && (a in accounts ==> accounts[a].rep != r)
      ensures RightAt(t, accounts, a, acc, r, f)
    {
      UntouchedIsRight(t, accounts, a, acc, r, f);
    }
    var t', accounts' := Moved(t, Before(accounts, a), acc), accounts[a := acc];
    if RightAt(t, accounts, a, acc, acc.rep, f) && (a in accounts ==> RightAt(t, accounts, a, acc, accounts[a].rep, f)) {
      forall r: Address ensures Value(Get(t', r), f) == Share(accounts', r, f) {
        assert RightAt(t, accounts, a, acc, r, f);
      }
    }
  }

  /** Faithful benefits and a nonzero old representative are enough. */
  lemma FaithfulIsKept(accounts: Accounts, a: Address, acc: Account, f: Field)
    requires Fits(accounts[a := acc]) && Faithful(acc, f)
    requires a in accounts ==> accounts[a].rep != ZeroHash && Faithful(accounts[a], f)
    ensures FieldKept(accounts, a, acc, f)
  {
    if a in accounts {
      PartWithinShare(accounts, a, f);
    }
  }

  lemma CoinsFit(accounts: Accounts, a: Address)
    requires Fits(accounts) && a in accounts
    ensures accounts[a].Coins() < TWO_64
  {
    SumAtLeast(CoinMap(accounts));
    assert CoinMap(accounts)[a] == accounts[a].Coins();
  }

  // ---- The recomputation at start ----

  /** One account of updateRepresentation's loop; oracle and storage are left alone. */
  function Count(t: Table, a: Account): Table {
    var b := Get(t, a.rep);
    t[a.rep := b.(balance := Add(b.balance, a.balance), vote := Add(b.vote, a.vote),
                  network := Add(b.network, a.network), total := Add(b.total, a.VoteWeight()))]
  }

  function Recompute(accounts: Accounts, order: seq<Address>): Table
    requires forall a :: a in order ==> a in accounts
  {
    if order == [] then map[]
    else Count(Recompute(accounts, order[..|order| - 1]), accounts[order[|order| - 1]])
  }

  lemma CountKeepsField(t: Table, accounts: Accounts, a: Address, acc: Account, f: Field)
    requires Recomputed(f) && Matches(t, accounts, f) && a !in accounts && Fits(accounts[a := acc])
    ensures Matches(Count(t, acc), accounts[a := acc], f)
  {
    CoinsFit(accounts[a := acc], a);
    forall r: Address ensures Value(Get(Count(t, acc), r), f) == Share(accounts[a := acc], r, f) {
      SharePut(accounts, a, acc, r, f);
      assert accounts - {a} == accounts;
      ShareWithinCoins(accounts[a := acc], r, f);
      assert Value(Get(t, r), f) == Share(accounts, r, f);
    }
  }

  lemma FitsBefore(accounts: Accounts, a: Address, acc: Account)
    requires a !in accounts && Fits(accounts[a := acc])
    ensures Fits(accounts)
  {
    assert CoinMap(accounts[a := acc]) == CoinMap(accounts)[a := acc.Coins() as int];
    SumUpdate(CoinMap(accounts), a, acc.Coins());
  }

  lemma {:induction false} RecomputeMatches(accounts: Accounts, order: seq<Address>, f: Field)
    requires Recomputed(f) && forall a :: a in order ==> a in accounts
    requires MergedIteration.NoRepeats(order)
    requires Fits(MergedIteration.Among(accounts, order))
    ensures Matches(Recompute(accounts, order), MergedIteration.Among(accounts, order), f)
    decreases |order|
  {
    if order == [] {
      forall r: Address ensures Share(MergedIteration.Among(accounts, order), r, f) == 0 {
        assert Parts(MergedIteration.Among(accounts, order), r, f) == map[];
      }
    } else {
      var n := |order| - 1;
      var init, a := order[..n], order[n];
      var some := MergedIteration.Among(accounts, init);
      MergedIteration.AmongStep(accounts, order);
      FitsBefore(some, a, accounts[a]);
      RecomputeMatches(accounts, init, f);
      CountKeepsField(Recompute(accounts, init), some, a, accounts[a], f);
    }
  }

  lemma {:induction false} RecomputeCovers(accounts: Accounts, order: seq<Address>)
    requires forall a :: a in order ==> a in accounts
    ensures forall a :: a in order ==> accounts[a].rep in Recompute(accounts, order)
    decreases |order|
  {
    if order != [] {
      RecomputeCovers(accounts, order[..|order| - 1]);
    }
  }

  lemma {:induction false} RecomputeOmits(accounts: Accounts, order: seq<Address>, r: Address, f: Field)
    requires !Recomputed(f) && forall a :: a in order ==> a in accounts
    ensures Value(Get(Recompute(accounts, order), r), f) == 0
    decreases |order|
  {
    if order != [] {
      RecomputeOmits(accounts, order[..|order| - 1], r, f);
    }
  }

  /** The recomputation gets the field right: it counts it, or there is nothing to count. */
  ghost predicate StartsRight(accounts: Accounts, f: Field) {
    Recomputed(f) || forall r: Address :: Share(accounts, r, f) == 0
  }

  /**
   Whatever the iteration order, balance, vote, network and total of the recomputed table are the sums over the
   accounts; storage and oracle are left at zero, which is the sum exactly when no account has any.
   */
  lemma RecomputeIsExactIff(accounts: Accounts, order: seq<Address>, f: Field)
    requires MergedIteration.Enumerates(order, accounts) && Fits(accounts)
    ensures Matches(Recompute(accounts, order), accounts, f) <==> StartsRight(accounts, f)
    ensures Covers(Recompute(accounts, order), accounts)
  {
    if Recomputed(f) {
      assert MergedIteration.Among(accounts, order) == accounts;
      RecomputeMatches(accounts, order, f);
    } else {
      forall r: Address ensures Value(Get(Recompute(accounts, order), r), f) == 0 {
        RecomputeOmits(accounts, order, r, f);
      }
    }
    RecomputeCovers(accounts, order);
  }

  /** updateRepresentation. */
  method UpdateRepresentation(accounts: Accounts, order: seq<Address>) returns (t: Table)
    requires MergedIteration.Enumerates(order, accounts)
    ensures t == Recompute(accounts, order)
  {
    t := map[];
    var n := 0;
    while n < |order|
      invariant 0 <= n <= |order|
      invariant t == Recompute(accounts, order[..n])
    {
      assert order[..n + 1][..n] == order[..n];
      var a := accounts[order[n]];
      if a.rep !in t {
        t := t[a.rep := ZERO_BENEFIT];
      }
      var b := t[a.rep];
      t := t[a.rep := b.(balance := Add(b.balance, a.balance), vote := Add(b.vote, a.vote),
                         network := Add(b.network, a.network), total := Add(b.total, a.VoteWeight()))];
      n := n + 1;
    }
    assert order[..n] == order;
  }

  // ---- Runs ----

  datatype Event = Maintain(action: Action<Address, Benefit>) | MoveAccount(address: Address, account: Account)

  datatype System = System(run: seq<Action<Address, Benefit>>, accounts: Accounts)

  ghost predicate Ready(store: Table, sys: System) {
    ValidRun(Initial(store), sys.run)
  }

  ghost function RingOf(store: Table, sys: System): State<Address, Benefit>
    requires Ready(store, sys)
  {
    Exec(Initial(store), sys.run)
  }

  ghost predicate Allowed(store: Table, sys: System, e: Event)
    requires Ready(store, sys)
  {
    var s := RingOf(store, sys);
    match e
    case Maintain(a) => !a.Commit? && Enabled(s, a)
    case MoveAccount(a, acc) => s.mode == Running && Fits(sys.accounts[a := acc])
  }

  /** A move that failed would leave everything unchanged. */
  ghost function Step(store: Table, sys: System, e: Event): System
    requires Ready(store, sys) && Allowed(store, sys, e)
  {
    match e
    case Maintain(a) => sys.(run := sys.run + [a])
    case MoveAccount(a, acc) =>
      match Move(RingOf(store, sys), Before(sys.accounts, a), acc)
      case None => sys
      case Some(m) => System(sys.run + [Commit(m)], sys.accounts[a := acc])
  }

  /** What holds along every run: all coins fit, and every representative of an account is in the table. */
  ghost predicate Sound(store: Table, sys: System) {
    Ready(store, sys) && Fits(sys.accounts) && Covers(View(RingOf(store, sys)), sys.accounts)
  }

  /** The records after an event, without looking at the weights. */
  function Recorded(accounts: Accounts, e: Event): Accounts {
    if e.Maintain? then accounts else accounts[e.address := e.account]
  }

  function TableAfter(t: Table, accounts: Accounts, e: Event): Table {
    if e.Maintain? then t else Moved(t, Before(accounts, e.address), e.account)
  }

  lemma MovedCovers(t: Table, accounts: Accounts, a: Address, acc: Account)
    requires Covers(t, accounts)
    ensures Covers(Moved(t, Before(accounts, a), acc), accounts[a := acc])
  {
  }

  lemma MoveStep(store: Table, sys: System, a: Address, acc: Account)
    requires Sound(store, sys) && Allowed(store, sys, MoveAccount(a, acc))
    ensures var m := Move(RingOf(store, sys), Before(sys.accounts, a), acc);
            && m.Some? && ValidRun(Initial(store), sys.run + [Commit(m.value)])
            && View(Exec(Initial(store), sys.run + [Commit(m.value)])) ==
               Moved(View(RingOf(store, sys)), Before(sys.accounts, a), acc)
  {
    var s := RingOf(store, sys);
    MoveIsMoved(s, Before(sys.accounts, a), acc);
    RunExtended(store, sys.run, Commit(Move(s, Before(sys.accounts, a), acc).value));
  }

  /** No move fails, and the table changes as it should. */
  lemma StepKeepsSound(store: Table, sys: System, e: Event)
    requires Sound(store, sys) && Allowed(store, sys, e)
    ensures Step(store, sys, e).accounts == Recorded(sys.accounts, e)
    ensures Sound(store, Step(store, sys, e))
    ensures View(RingOf(store, Step(store, sys, e))) == TableAfter(View(RingOf(store, sys)), sys.accounts, e)
  {
    match e
    case Maintain(a) => RunExtended(store, sys.run, a);
    case MoveAccount(a, acc) =>
      MoveStep(store, sys, a, acc);
      MovedCovers(View(RingOf(store, sys)), sys.accounts, a, acc);
  }

  ghost predicate ValidEvents(accounts: Accounts, order: seq<Address>, events: seq<Event>)
    requires MergedIteration.Enumerates(order, accounts)
    decreases |events|, 0
  {
    events == [] ||
    var init, last := events[..|events| - 1], events[|events| - 1];
    && ValidEvents(accounts, order, init)
    && Ready(Recompute(accounts, order), After(accounts, order, init))
    && Allowed(Recompute(accounts, order), After(accounts, order, init), last)
  }

  ghost function After(accounts: Accounts, order: seq<Address>, events: seq<Event>): System
    requires MergedIteration.Enumerates(order, accounts) && ValidEvents(accounts, order, events)
    decreases |events|, 1
  {
    if events == [] then System([], accounts)
    else Step(Recompute(accounts, order), After(accounts, order, events[..|events| - 1]), events[|events| - 1])
  }

  function RecordedAll(accounts: Accounts, events: seq<Event>): Accounts {
    if events == [] then accounts
    else Recorded(RecordedAll(accounts, events[..|events| - 1]), events[|events| - 1])
  }

  /** The weights in force after a run. */
  ghost function Weights(accounts: Accounts, order: seq<Address>, events: seq<Event>): Table
    requires MergedIteration.Enumerates(order, accounts) && ValidEvents(accounts, order, events)
    requires Ready(Recompute(accounts, order), After(accounts, order, events))
  {
    View(RingOf(Recompute(accounts, order), After(accounts, order, events)))
  }

  /** No move of the run fails: every record arrives, and the table holds every representative. */
  lemma {:induction false} MovesSucceed(accounts: Accounts, order: seq<Address>, events: seq<Event>)
    requires MergedIteration.Enumerates(order, accounts) && Fits(accounts) && ValidEvents(accounts, order, events)
    ensures After(accounts, order, events).accounts == RecordedAll(accounts, events)
    ensures Sound(Recompute(accounts, order), After(accounts, order, events))
    decreases |events|
  {
    var store := Recompute(accounts, order);
    if events == [] {
      RecomputeIsExactIff(accounts, order, OfBalance);
      StartsAtStore(store);
    } else {
      MovesSucceed(accounts, order, events[..|events| - 1]);
      StepKeepsSound(store, After(accounts, order, events[..|events| - 1]), events[|events| - 1]);
    }
  }

  lemma StartsAtStore(store: Table)
    ensures View(Exec(Initial(store), [])) == store
  {
    RunRefines<Address, Benefit>(store, []);
    ApplyEmpty(store);
  }

  /** Along the whole run the field equals a fresh recomputation. */
  ghost predicate AlwaysMatches(accounts: Accounts, order: seq<Address>, events: seq<Event>, f: Field)
    requires MergedIteration.Enumerates(order, accounts) && ValidEvents(accounts, order, events)
    decreases |events|
  {
    && Ready(Recompute(accounts, order), After(accounts, order, events))
    && Matches(Weights(accounts, order, events), RecordedAll(accounts, events), f)
    && (events != [] ==> AlwaysMatches(accounts, order, events[..|events| - 1], f))
  }

  /** Every move of the run meets its condition on the records of its moment. */
  ghost predicate AllKept(accounts: Accounts, events: seq<Event>, f: Field)
    decreases |events|
  {
    events == [] ||
    var init, last := events[..|events| - 1], events[|events| - 1];
    && AllKept(accounts, init, f)
    && (last.MoveAccount? ==> FieldKept(RecordedAll(accounts, init), last.address, last.account, f))
  }

  /**
   Incremental weights against recomputation.  Start from the table updateRepresentation computes and
   apply any sequence of account moves, each in one batch, with ring steps anywhere between: a field of
   every representative equals the sum over the accounts at every moment if and only if it does at the start,
   which only storage and oracle may not, and every move meets its condition.
   */
  lemma {:induction false} WeightsAgreeIff(accounts: Accounts, order: seq<Address>, events: seq<Event>, f: Field)
    requires MergedIteration.Enumerates(order, accounts) && Fits(accounts) && ValidEvents(accounts, order, events)
    ensures AlwaysMatches(accounts, order, events, f) <==> StartsRight(accounts, f) && AllKept(accounts, events, f)
    decreases |events|
  {
    var store := Recompute(accounts, order);
    MovesSucceed(accounts, order, events);
    if events == [] {
      RecomputeIsExactIff(accounts, order, f);
      StartsAtStore(store);
    } else {
      var init, last := events[..|events| - 1], events[|events| - 1];
      MovesSucceed(accounts, order, init);
      WeightsAgreeIff(accounts, order, init, f);
      StepKeepsSound(store, After(accounts, order, init), last);
      if last.MoveAccount? && StartsRight(accounts, f) && AllKept(accounts, init, f) {
        MoveKeepsFieldIff(Weights(accounts, order, init), RecordedAll(accounts, init), last.address, last.account, f);
      }
    }
  }

  /** The moved account's old and new records are faithful in the field, and its old representative is not zero. */
  ghost predicate FaithfulMoves(accounts: Accounts, events: seq<Event>, f: Field)
    decreases |events|
  {
    events == [] ||
    var init, last := events[..|events| - 1], events[|events| - 1];
    && FaithfulMoves(accounts, init, f)
    && (last.MoveAccount? ==>
          && Faithful(last.account, f)
          && var was := Before(RecordedAll(accounts, init), last.address);
             was.Some? ==> was.value.rep != ZeroHash && Faithful(was.value, f))
  }

  /**
   So the single coins always agree from a right start on, and the total does along runs in which no account
   that moves holds oracle or storage coins before or after.
   */
  lemma {:induction false} WeightsAgree(accounts: Accounts, order: seq<Address>, events: seq<Event>, f: Field)
    requires MergedIteration.Enumerates(order, accounts) && Fits(accounts) && ValidEvents(accounts, order, events)
    requires StartsRight(accounts, f) && FaithfulMoves(accounts, events, f)
    ensures AlwaysMatches(accounts, order, events, f)
    ensures After(accounts, order, events).accounts == RecordedAll(accounts, events)
  {
    MovesSucceed(accounts, order, events);
    FaithfulMovesAreKept(accounts, order, events, f);
    WeightsAgreeIff(accounts, order, events, f);
  }

  lemma {:induction false} FaithfulMovesAreKept(accounts: Accounts, order: seq<Address>, events: seq<Event>, f: Field)
    requires MergedIteration.Enumerates(order, accounts) && Fits(accounts) && ValidEvents(accounts, order, events)
    requires FaithfulMoves(accounts, events, f)
    ensures AllKept(accounts, events, f)
    decreases |events|
  {
    if events != [] {
      var init, last := events[..|events| - 1], events[|events| - 1];
      FaithfulMovesAreKept(accounts, order, init, f);
      MovesSucceed(accounts, order, init);
      if last.MoveAccount? {
        FaithfulIsKept(RecordedAll(accounts, init), last.address, last.account, f);
      }
    }
  }

  /** An account that gains one oracle coin: the processor's total and a recomputation part. */
  lemma TotalDrifts()
    ensures var was, acc := Account(OfKey(1), 5, 0, 0, 0, 0), Account(OfKey(1), 5, 0, 0, 1, 0);
            var accounts := map[OfKey(2) := was];
            var t := Recompute(accounts, [OfKey(2)]);
            && Fits(accounts) && Fits(accounts[OfKey(2) := acc]) && Matches(t, accounts, OfTotal)
            && Get(Moved(t, Some(was), acc), OfKey(1)).total == 6
            && Get(Recompute(accounts[OfKey(2) := acc], [OfKey(2)]), OfKey(1)).total == 5
  {
    var was, acc := Account(OfKey(1), 5, 0, 0, 0, 0), Account(OfKey(1), 5, 0, 0, 1, 0);
    var accounts, order := map[OfKey(2) := was], [OfKey(2)];
    OneAccountFits(OfKey(2), was);
    OneAccountFits(OfKey(2), acc);
    assert accounts[OfKey(2) := acc] == map[OfKey(2) := acc];
    RecomputeIsExactIff(accounts, order, OfTotal);
    assert order[..0] == [];
  }

  /** An account that leaves the zero representative: its benefit is not taken back from there. */
  lemma ZeroRepresentativeKeepsBenefit()
    ensures var was, acc := Account(ZeroHash, 5, 0, 0, 0, 0), Account(OfKey(1), 5, 0, 0, 0, 0);
            var accounts := map[OfKey(2) := was];
            var t := Recompute(accounts, [OfKey(2)]);
            && Fits(accounts) && Fits(accounts[OfKey(2) := acc]) && Matches(t, accounts, OfBalance)
            && Get(Moved(t, Some(was), acc), ZeroHash).balance == 5
            && Get(Recompute(accounts[OfKey(2) := acc], [OfKey(2)]), ZeroHash).balance == 0
  {
    var was, acc := Account(ZeroHash, 5, 0, 0, 0, 0), Account(OfKey(1), 5, 0, 0, 0, 0);
    var accounts, order := map[OfKey(2) := was], [OfKey(2)];
    OneAccountFits(OfKey(2), was);
    OneAccountFits(OfKey(2), acc);
    assert accounts[OfKey(2) := acc] == map[OfKey(2) := acc];
    RecomputeIsExactIff(accounts, order, OfBalance);
    assert order[..0] == [];
  }

  /** An account with storage coins: the recomputation says the representative has none. */
  lemma StorageIsOmitted()
    ensures var accounts := map[OfKey(2) := Account(OfKey(1), 0, 0, 0, 0, 5)];
            && Fits(accounts) && Share(accounts, OfKey(1), OfStorage) == 5
            && Get(Recompute(accounts, [OfKey(2)]), OfKey(1)).storage == 0
  {
    var acc := Account(OfKey(1), 0, 0, 0, 0, 5);
    var accounts, order := map[OfKey(2) := acc], [OfKey(2)];
    OneAccountFits(OfKey(2), acc);
    var none: Accounts := map[];
    SharePut(none, OfKey(2), acc, OfKey(1), OfStorage);
    assert none - {OfKey(2)} == none && Parts(none, OfKey(1), OfStorage) == map[] && none[OfKey(2) := acc] == accounts;
    RecomputeOmits(accounts, order, OfKey(1), OfStorage);
  }

  lemma OneAccountFits(a: Address, acc: Account)
    requires acc.Coins() < TWO_64
    ensures Fits(map[a := acc])
  {
    var none: map<Address, int> := map[];
    assert CoinMap(map[a := acc]) == none[a := acc.Coins()];
    SumUpdate(none, a, acc.Coins());
    assert none - {a} == none;
  }

  // ---- All totals together ----

  ghost function ShareMap(reps: set<Address>, accounts: Accounts): map<Address, int> {
    map r | r in reps :: Share(accounts, r, OfTotal)
  }

  ghost function WeightMap(accounts: Accounts): map<Address, int> {
    map a | a in accounts :: Part(accounts[a], OfTotal)
  }

  lemma ShareMapStep(reps: set<Address>, accounts: Accounts, a: Address)
    requires a in accounts && accounts[a].rep in reps
    ensures Sum(ShareMap(reps, accounts)) == Sum(ShareMap(reps, accounts - {a})) + Part(accounts[a], OfTotal)
  {
    var rest, rep := accounts - {a}, accounts[a].rep;
    forall r | r in reps
      ensures Share(accounts, r, OfTotal) == Share(rest, r, OfTotal) + if r == rep then Part(accounts[a], OfTotal) else 0
    {
      ShareRemove(accounts, a, r, OfTotal);
    }
    assert ShareMap(reps, accounts) == ShareMap(reps, rest)[rep := Share(accounts, rep, OfTotal)];
    SumUpdate(ShareMap(reps, rest), rep, Share(accounts, rep, OfTotal));
  }

  lemma WeightMapStep(accounts: Accounts, a: Address)
    requires a in accounts
    ensures Sum(WeightMap(accounts)) == Sum(WeightMap(accounts - {a})) + Part(accounts[a], OfTotal)
  {
    assert WeightMap(accounts - {a}) == WeightMap(accounts) - {a};
    SumRemove(WeightMap(accounts), a);
  }

  lemma NoShares(reps: set<Address>)
    ensures Sum(ShareMap(reps, map[])) == 0 && Sum(WeightMap(map[])) == 0
  {
    var none: Accounts := map[];
    forall r | r in reps ensures Share(none, r, OfTotal) == 0 {
      assert Parts(none, r, OfTotal) == map[];
    }
    assert WeightMap(none) == map[];
    SumOfZeros(ShareMap(reps, none));
  }

  lemma {:induction false} SharesSumToWeight(reps: set<Address>, accounts: Accounts)
    requires forall a :: a in accounts ==> accounts[a].rep in reps
    ensures Sum(ShareMap(reps, accounts)) == Sum(WeightMap(accounts))
    decreases |accounts|
  {
    if accounts == map[] {
      NoShares(reps);
    } else {
      var a :| a in accounts;
      var rest := accounts - {a};
      Smaller(accounts, a);
      SharesSumToWeight(reps, rest);
      ShareMapStep(reps, accounts, a);
      WeightMapStep(accounts, a);
    }
  }

  lemma {:induction false} SumOfZeros<K>(m: map<K, int>)
    requires forall k :: k in m ==> m[k] == 0
    ensures Sum(m) == 0
    decreases |m|
  {
    if m != map[] {
      var k :| k in m;
      SumTake(m, k);
      Smaller(m, k);
      SumOfZeros(m - {k});
    }
  }

  /** The totals in the table sum to the vote weight of all accounts. */
  lemma TotalsSumToWeight(t: Table, accounts: Accounts)
    requires Matches(t, accounts, OfTotal) && Covers(t, accounts)
    ensures Sum(map r | r in t :: t[r].total as int) == Sum(WeightMap(accounts))
  {
    var totals := map r | r in t :: t[r].total as int;
    forall r | r in t ensures t[r].total == Share(accounts, r, OfTotal) {
      assert Value(Get(t, r), OfTotal) == Share(accounts, r, OfTotal);
    }
    assert totals == ShareMap(t.Keys, accounts);
    SharesSumToWeight(t.Keys, accounts);
  }

  // ---- The operations on a batch ----

  /** Reads the benefit through batch, ring and store, changes it field by field, and writes it back. */
  method AddRepresentationIn(l: LedgerStore.Ledger<Address, Benefit>, r: Address, d: Benefit,
                             batch: MemoryCache.Cache<Address, Benefit>)
    requires l.cache.Shape() && batch !in l.cache.caches
    modifies batch`entries
    ensures batch.entries == AddRepresentation(old(l.cache.Abs()), r, d, old(batch.entries))
  {
    ghost var s := l.cache.Abs();
    ReadIsView(s, batch.entries, r);
    var found := l.GetObject(r, batch.entries);
    var value := if found.Some? then found.value else ZERO_BENEFIT;
    value := value.(balance := Add(value.balance, d.balance));
    value := value.(vote := Add(value.vote, d.vote));
    value := value.(network := Add(value.network, d.network));
    value := value.(oracle := Add(value.oracle, d.oracle));
    value := value.(storage := Add(value.storage, d.storage));
    value := value.(total := Add(value.total, d.total));
    batch.Put(r, Live(value));
  }

  /** As above, and an error for a representative without a benefit. */
  method SubRepresentationIn(l: LedgerStore.Ledger<Address, Benefit>, r: Address, d: Benefit,
                             batch: MemoryCache.Cache<Address, Benefit>)
      returns (ok: bool)
    requires l.cache.Shape() && batch !in l.cache.caches
    modifies batch`entries
    ensures ok <==> SubRepresentation(old(l.cache.Abs()), r, d, old(batch.entries)).Some?
    ensures batch.entries ==
            if ok then SubRepresentation(old(l.cache.Abs()), r, d, old(batch.entries)).value else old(batch.entries)
  {
    ghost var s := l.cache.Abs();
    ReadIsView(s, batch.entries, r);
    var found := l.GetObject(r, batch.entries);
    if found.None? {
      return false;
    }
    var value := found.value;
    value := value.(balance := Sub(value.balance, d.balance));
    value := value.(vote := Sub(value.vote, d.vote));
    value := value.(network := Sub(value.network, d.network));
    value := value.(oracle := Sub(value.oracle, d.oracle));
    value := value.(storage := Sub(value.storage, d.storage));
    value := value.(total := Sub(value.total, d.total));
    batch.Put(r, Live(value));
    return true;
  }
}
