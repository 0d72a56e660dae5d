/** Account and token records. */
module Accounts {
  import opened Blocks

  /** State of one account for one token. */
  datatype TokenMeta = TokenMeta(
    typ: Token,
    header: Hash,
    representative: Address,
    openBlock: Hash,
    balance: Balance,
    belongTo: Address,
    modified: int,
    blockCount: int)
}
