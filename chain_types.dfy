/** Values the elasticsearch plugin receives from the chain controller, and the
    process clock it reads with `fc::time_point::now()`. */
module ChainTypes {

  /** An account name is a 64-bit unsigned integer (the base-32 packing of up to 13 characters). */
  newtype Name = x: int | 0 <= x < 0x1_0000_0000_0000_0000

  /** `name::good()`: every name except the empty one (value 0). */
  function Good(n: Name): (r: bool)
    ensures r <==> n > 0
    ensures n == SystemAccount ==> r
  {
    n != 0
  }

  /** `config::system_account_name`, the packed value of "eosio". */
  const SystemAccount: Name := 0x5530_EA00_0000_0000

  /** A block number is a `uint32_t`. */
  type BlockNum = x: int | 0 <= x < 0x1_0000_0000

  /** `static_cast<int32_t>` of a `uint32_t`: two's-complement reinterpretation. */
  function ToInt32(u: BlockNum): (r: int)
    ensures -0x8000_0000 <= r < 0x8000_0000
    ensures (r - u) % 0x1_0000_0000 == 0
    ensures u < 0x8000_0000 ==> r == u
  {
    if u < 0x8000_0000 then u else u - 0x1_0000_0000
  }

  /** One action inside a block: the contract account that owns it and its packed payload. */
  datatype Action = Action(account: Name, data: seq<bv8>)

  /** What the plugin reads from a `block_state_ptr`. `header` stands for the serialised
      block header state; `actions` for the actions of the block's transactions, in order. */
  datatype BlockState = BlockState(
    blockNum: BlockNum,
    id: string,
    previous: string,
    validated: bool,
    inCurrentChain: bool,
    header: string,
    actions: seq<Action>)

  /** A `transaction_metadata_ptr`; only its identity matters to the pipeline. */
  datatype TransactionMetadata = TransactionMetadata(id: string)

  /** A `transaction_trace_ptr`; only its identity matters to the pipeline. */
  datatype TransactionTrace = TransactionTrace(id: string)

  /** The process clock: every call of `Now` returns the current reading and moves it on,
      so two readings are never equal and later readings are larger. */
  class Clock {
    var time: nat

    constructor ()
      ensures time == 0
    {
      time := 0;
    }

    method Now() returns (t: nat)
      modifies this`time
      ensures t == old(time) && time == old(time) + 1
    {
      t := time;
      time := time + 1;
    }
  }
}
