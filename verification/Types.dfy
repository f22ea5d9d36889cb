/** Integer widths, sizes and reserved identifiers shared by every component of the swarm driver. */
module SwarmTypes {
  type byte = x: int | 0 <= x < 0x100
  type U16 = x: int | 0 <= x < 0x1_0000
  type U32 = x: int | 0 <= x < 0x1_0000_0000

  datatype Option<+T> = None | Some(value: T)

  const MAX_CLIENTS: nat := 10
  const MAX_TASKS: nat := 16

  /** 0x30303030, the destination that stands for every reachable node. */
  const BROADCAST: U32 := 0x3030_3030

  /** Device IDs are numbered from here; the mask has one column for each of the next MAX_CLIENTS. */
  const BASE_ID: U32 := 0x2020_2020

  /** The ASCII codes of 'I' and 'D'. */
  const TAG_I: byte := 0x49
  const TAG_D: byte := 0x44

  /** The IDs that have a column in the connection mask. */
  predicate InColumns(id: U32) {
    BASE_ID <= id < BASE_ID + MAX_CLIENTS
  }

  /** What the socket layer reports; every failure the driver does not single out is OtherError. */
  datatype SocketStatus = Success | Disconnected | TryAgain | OtherError

  /** What a receive leaves in a stack buffer that held `junk`: at most |junk| bytes of the message. */
  function ReceivedInto(junk: seq<byte>, msg: seq<byte>): (buffer: seq<byte>)
    ensures |buffer| == |junk|
  {
    if |msg| >= |junk| then msg[..|junk|] else msg + junk[|msg|..]
  }
}
