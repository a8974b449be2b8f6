/** Bytes, machine integers, errors and results shared by every part of the model. */
module Types {

  type byte = x: int | 0 <= x < 256

  const U32_RANGE := 0x1_0000_0000

  type u32 = x: int | 0 <= x < 0x1_0000_0000

  /** 10 MiB, the reservation every endpoint starts with. */
  const DEFAULT_MAX_BUFFER_SIZE := 10 * 1024 * 1024

  /** The library's error enum. Message strings are dropped; `Msg` stands for every text-only error. */
  datatype Error =
    | Io
    | Timeout
    | Protocol
    | BufferOverflow(expected: nat, limit: nat)
    | NotConnected
    | ConnectionClosed
    | ConnectionClosedMidFrame(received: nat, wanted: nat)
    | ResponseError(status: byte)
    | Config
    | Msg

  datatype Option<+T> = None | Some(value: T)

  datatype Result<+T> = Ok(value: T) | Err(error: Error)

  /** How an awaited read or write can end without completing. */
  datatype Stop = Eof | IoFailure | TimedOut

  /** One call of a command on the server's handler. */
  datatype Request = Request(command: u32, payload: seq<byte>)

  /** What the user's command handler returns. */
  datatype Outcome = Replied(code: byte, body: seq<byte>) | Failed
  {
    /** The status byte that goes on the wire. */
    function Status(): byte { if Replied? then code else STATUS_ERROR }

    /** The payload that goes on the wire: a failing handler is answered with an empty one. */
    function Body(): seq<byte> { if Replied? then body else [] }
  }

  datatype Dispatch = Dispatch(request: Request, outcome: Outcome)

  const STATUS_OK: byte := 1
  const STATUS_FINISH: byte := 2
  const STATUS_ERROR: byte := 3
  const STATUS_INVALID_DATA_SIZE: byte := 7
  const PING_COMMAND: u32 := 0
}
