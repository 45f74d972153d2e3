// Values that travel from the fetcher to the sequencer: blocks, logs and fetch results.
module Blocks {
  datatype Option<+T> = None | Some(value: T)

  type Hash = nat

  datatype Block = Block(number: int, hash: Hash, parent: Hash)

  datatype Log = Log(blockNumber: int, payload: nat)

  /** One fetch result.  The error value itself is never inspected, so `failed` stands for a non-nil error. */
  datatype BlockData = BlockData(number: Option<int>, rangeEnd: Option<int>, block: Option<Block>, failed: bool,
    logs: seq<Log>)

  /** A fetch result together with the answers the RPC node gives if the sequencer asks about that result;
      `None` is a failed call or a missing client. */
  datatype Arrival = Arrival(data: BlockData, rpcBlock: Option<Block>, rpcLogs: Option<seq<Log>>)

  /** The height by which a result is filed before any refetch: its number, else the number of its block. */
  function KeyOf(d: BlockData): Option<int> {
    if d.number.Some? then d.number else if d.block.Some? then Some(d.block.value.number) else None
  }

  /** An error-free result for height n whose parts, and the RPC answer for it, agree on the height. */
  predicate Clean(a: Arrival) {
    && !a.data.failed
    && KeyOf(a.data).Some?
    && (a.data.block.Some? ==> a.data.block.value.number == KeyOf(a.data).value)
    && (a.rpcBlock.Some? ==> a.rpcBlock.value.number == KeyOf(a.data).value)
  }

  function HeightOf(a: Arrival): int
    requires Clean(a)
  {
    KeyOf(a.data).value
  }

  predicate AllClean(batch: seq<Arrival>) {
    forall i :: 0 <= i < |batch| ==> Clean(batch[i])
  }

  ghost function Heights(batch: seq<Arrival>): set<int>
    requires AllClean(batch)
  {
    set i | 0 <= i < |batch| :: HeightOf(batch[i])
  }
}
