/** The record types shared by the worker's components, and the small wrappers used for error returns. */
module Structs {

  datatype Option<+T> = None | Some(value: T)

  datatype Result<+T> = Ok(value: T) | Err(error: string)

  /** uint64 values are naturals below this bound. */
  const TWO_64: nat := 0x1_0000_0000_0000_0000

  datatype Block = Block(hash: string, height: nat, time: int, chainId: string, numTxs: nat)

  datatype SubEvent = SubEvent(types: seq<string>, mod: string, errorMessage: Option<string>)

  datatype TransactionEvent = TransactionEvent(id: string, kind: string, sub: seq<SubEvent>)

  datatype Transaction = Transaction(
    height: nat, hash: string, memo: string, events: seq<TransactionEvent>,
    blockHash: string, chainId: string, time: int)
}
