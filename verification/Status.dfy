/** Result codes of the driver API and of the injected transport. */
module StatusCodes {
  import opened Base

  datatype Err =
    | Ok
    | NotInitialized
    | InvalidConfig
    | I2cError
    | Timeout
    | InvalidParam
    | DeviceNotFound
    | Unsupported
    | I2cNackAddr
    | I2cNackData
    | I2cTimeout
    | I2cBus
    | Busy
    | InProgress
    | ResetStateMismatch
    | ResetError

  /** Which static diagnostic string a status carries; a RESET callback may bring its own. */
  datatype Message =
    | Own(text: string)
    | Fine
    | AddressNack
    | DataNack
    | TransferTimedOut
    | BusFault
    | TransportFault
    | DriverNotBound
    | CallbacksNotSet
    | TimeoutRange
    | ResetTimeoutRange
    | AddressRange
    | ThresholdRange
    | AlreadyBound
    | ResetNotConfigured
    | ResetCodeInvalid
    | ResetByteNotZero
    | ChannelRange
    | ReadbackMismatch
    | SoakExpired
    | ClockMissing
    | BusUnavailable
    | ProbeUnavailable
    | SessionCancelled

  datatype Status = Status(code: Err, detail: i32, msg: Message) {
    predicate IsOk() {
      code.Ok?
    }
  }

  const OK := Status(Err.Ok, 0, Fine)

  function Error(code: Err, msg: Message, detail: i32 := 0): Status {
    Status(code, detail, msg)
  }

  /** Numeric value of a code, as reported in `detail` when a RESET callback breaks its contract. */
  function ErrNumber(e: Err): Byte {
    match e
    case Ok => 0
    case NotInitialized => 1
    case InvalidConfig => 2
    case I2cError => 3
    case Timeout => 4
    case InvalidParam => 5
    case DeviceNotFound => 6
    case Unsupported => 7
    case I2cNackAddr => 8
    case I2cNackData => 9
    case I2cTimeout => 10
    case I2cBus => 11
    case Busy => 12
    case InProgress => 13
    case ResetStateMismatch => 14
    case ResetError => 15
  }

  datatype TransportErr = TrOk | NackAddr | NackData | TrTimeout | Bus | Other

  datatype TransportStatus = TransportStatus(code: TransportErr, detail: i32)

  function MapTransportStatus(t: TransportStatus): Status {
    match t.code
    case TrOk => OK
    case NackAddr => Error(I2cNackAddr, AddressNack, t.detail)
    case NackData => Error(I2cNackData, DataNack, t.detail)
    case TrTimeout => Error(I2cTimeout, TransferTimedOut, t.detail)
    case Bus => Error(I2cBus, BusFault, t.detail)
    case Other => Error(I2cError, TransportFault, t.detail)
  }
}
