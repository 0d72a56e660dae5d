/**
 State blocks, collision-free hashes, and the balance arithmetic of the ledger.
 */
module Blocks {

  const TWO_64 := 0x1_0000_0000_0000_0000

  /** A balance is a 64-bit amount. */
  type Balance = x: int | 0 <= x < TWO_64

  /** Balance.Add yields zero, not an error, when the sum does not fit in 64 bits. */
  function Add(a: Balance, b: Balance): Balance {
    if a + b < TWO_64 then a + b else 0
  }

  /** Balance.Sub yields zero when the difference would be negative. */
  function Sub(a: Balance, b: Balance): Balance {
    if a < b then 0 else a - b
  }

  /** Addresses and hashes are both 32 bytes, and the ledger converts freely between them. */
  type Address = Hash
  type Token = nat

  datatype BlockType =
    | PlainState | Send | Receive | Change | Open | ContractReward | ContractSend
    | ContractRefund | ContractError | SmartContract | Online | Invalid

  /** Hashes without collisions: a block's hash determines the block.  `OfKey` is a public key. */
  datatype Hash = ZeroHash | OfKey(key: nat) | OfBlock(block: StateBlock)

  datatype StateBlock = StateBlock(
    typ: BlockType,
    token: Token,
    address: Address,
    balance: Balance,
    vote: Balance,
    network: Balance,
    storage: Balance,
    oracle: Balance,
    previous: Hash,
    link: Hash,
    representative: Address,
    povHeight: nat,
    timestamp: int)
  {
    predicate IsOpen() { previous == ZeroHash }

    /** For an open block this is the send block it answers. */
    function Parent(): Hash { if IsOpen() then link else previous }

    function TotalBalance(): Balance {
      Add(Add(Add(Add(balance, vote), network), oracle), storage)
    }

    /** The sum TotalBalance stands for when nothing overflows. */
    function Coins(): nat { balance + vote + network + oracle + storage }
  }

  lemma TotalBalanceExact(b: StateBlock)
    ensures b.Coins() < TWO_64 ==> b.TotalBalance() == b.Coins()
  {
  }

  /** The blocks reached from a header through parents that are all known, newest first. */
  function Walk(header: Hash, known: set<Hash>): seq<Hash> {
    if header.OfBlock? && header in known then [header] + Walk(header.block.previous, known) else []
  }

  predicate LinkedAt(w: seq<Hash>, known: set<Hash>, i: nat)
    requires i < |w|
  {
    w[i].OfBlock? && w[i] in known && (i + 1 < |w| ==> w[i].block.previous == w[i + 1])
  }

  /** The walk starts at the header and goes on as long as it can. */
  predicate WalkEnds(w: seq<Hash>, header: Hash, known: set<Hash>) {
    if w == [] then !(header.OfBlock? && header in known)
    else
      var last := w[|w| - 1];
      w[0] == header && last.OfBlock? && !(last.block.previous.OfBlock? && last.block.previous in known)
  }

  /** Each block of the walk is known and is the child of the next; it starts at the header and stops only where it must. */
  lemma {:induction false} WalkIsChain(header: Hash, known: set<Hash>)
    ensures forall i :: 0 <= i < |Walk(header, known)| ==> LinkedAt(Walk(header, known), known, i)
    ensures WalkEnds(Walk(header, known), header, known)
  {
    if header.OfBlock? && header in known {
      WalkIsChain(header.block.previous, known);
      var w, rest := Walk(header, known), Walk(header.block.previous, known);
      assert w == [header] + rest;
      forall i | 0 <= i < |w| ensures LinkedAt(w, known, i) {
        assert i > 0 ==> LinkedAt(rest, known, i - 1);
      }
    }
  }

  /** Hash chains have no cycles. */
  lemma {:induction false} NotOwnPrevious(b: StateBlock)
    ensures b.previous != OfBlock(b)
  {
    if b.previous.OfBlock? {
      NotOwnPrevious(b.previous.block);
    }
  }
}
