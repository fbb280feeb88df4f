/** The domain types shared by every part of the relayer (internal/core). */
module Core {

  type Byte = b: int | 0 <= b < 256

  type Bytes = seq<Byte>

  /** A Go `[32]byte`. */
  type Word = w: Bytes | |w| == 32 witness seq(32, _ => 0)

  /** A 20-byte account address. */
  type Address = a: Bytes | |a| == 20 witness seq(20, _ => 0)

  /** A Go string is a byte sequence. */
  type IntentId = Bytes

  datatype Option<+T> = None | Some(value: T)

  /** `serial` is the identity of the Go pointer: every accepted request allocates a fresh Intent. */
  datatype Intent = Intent(
    serial: nat,
    id: IntentId,
    sender: Address,
    tokenIn: Address,
    tokenOut: Address,
    amountIn: int,
    minAmountOut: int,
    deadline: int,
    nonce: nat)

  /** The two amounts are Go pointers, so they may be nil. */
  datatype Bid = Bid(
    intentId: IntentId,
    solver: Address,
    amountOut: Option<int>,
    gasPrice: Option<int>)

  datatype Voucher = Voucher(
    intentId: IntentId,
    winningSolver: Address,
    amountOut: Option<int>,
    intent: Intent,
    winningBid: Bid)
}
