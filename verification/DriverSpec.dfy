/** The driver on values: its fields, the chip's control byte, and the record of
    everything that happened on the bus. `Do` says what one API call does. */
module DriverSpec {
  import opened Base
  import opened StatusCodes

  datatype Provenance = Unknown | WriteCompleted | ReadbackObserved

  datatype Observation = Observation(mask: Byte, provenance: Provenance) {
    predicate Known() { !provenance.Unknown? }
    predicate Verified() { provenance.ReadbackObserved? }
  }

  datatype DriverState = Uninit | Ready | Degraded | Offline

  datatype Config = Config(
    hasWrite: bool, hasRead: bool, hasReset: bool, hasClock: bool,
    address: Byte, i2cTimeoutMs: u32, resetTimeoutMs: u32, offlineThreshold: Byte)

  const NEUTRAL_CONFIG := Config(false, false, false, false, 0x70, 20, 10, 5)
  const NO_OBSERVATION := Observation(0, Unknown)
  const MAX_CALLBACK_TIMEOUT_MS: u32 := 60000

  /** The private fields of the driver object. */
  datatype Dev = Dev(
    config: Config, bound: bool, initialized: bool, state: DriverState,
    lastOkMs: u32, lastErrorMs: u32, lastError: Status,
    consecutiveFailures: Byte, totalFailures: u32, totalSuccess: u32,
    obs: Observation)

  const FRESH_DEV := Dev(NEUTRAL_CONFIG, false, false, Uninit, 0, 0, OK, 0, 0, 0, NO_OBSERVATION)

  /** One thing that happened on the bus or to the binding. */
  datatype Event =
    | Wrote(mask: Byte, status: Status)
    | ReadBack(byte: Byte, status: Status, tracked: bool)
    | AddressProbed(address: int, status: Status)
    | Pulsed(status: Status)
    | BoundWith(threshold: Byte)
    | Released

  /** Driver, chip and record. `drifted` holds while the chip may have been changed
      from outside with neither a report to the driver nor a transfer since. */
  datatype World = World(dev: Dev, hw: Byte, history: seq<Event>, drifted: bool)

  /** The environment's answer to one transfer: the transport's verdict, the byte the
      chip is left with by a failed write, and the clock hook's value. */
  datatype Reply = Reply(transport: TransportStatus, after: Byte, now: u32)

  /** The environment's answer to one RESET pulse; RESET may leave any byte. */
  datatype ResetReply = ResetReply(status: Status, after: Byte)

  datatype Call =
    | Begin(config: Config, reply: Reply)
    | End
    | Probe(reply: Reply)
    | Recover(reply: Reply)
    | HardReset(pulse: ResetReply, reply: Reply)
    | Select(channel: Byte, reply: Reply)
    | WriteMask(mask: Byte, reply: Reply)
    | DisableAll(reply: Reply)
    | ReadMask(reply: Reply)
    | Invalidate
    | ExternalChange(byte: Byte)

  const NOT_BOUND := Error(NotInitialized, DriverNotBound)

  /** `1 << channel`, or 0 for a channel outside 0..7. */
  function One(channel: Byte): Byte {
    if channel == 0 then 1 else if channel == 1 then 2 else if channel == 2 then 4
    else if channel == 3 then 8 else if channel == 4 then 16 else if channel == 5 then 32
    else if channel == 6 then 64 else if channel == 7 then 128 else 0
  }

  /** Enabling one channel sets its bit and no other. */
  lemma OneHot(channel: Byte)
    requires channel < 8
    ensures One(channel) == Pow2(channel) == PowByte(channel)
    ensures forall j: nat :: Bit(One(channel), j) <==> j == channel
  {
    ByteRange();
    forall j: nat ensures Bit(Pow2(channel), j) <==> j == channel { Pow2Bits(channel, j); }
  }

  function ConfigError(c: Config): Status {
    if !c.hasWrite || !c.hasRead then Error(InvalidConfig, CallbacksNotSet)
    else if c.i2cTimeoutMs == 0 || c.i2cTimeoutMs > MAX_CALLBACK_TIMEOUT_MS then
      Error(InvalidConfig, TimeoutRange)
    else if c.resetTimeoutMs == 0 || c.resetTimeoutMs > MAX_CALLBACK_TIMEOUT_MS then
      Error(InvalidConfig, ResetTimeoutRange)
    else if !(0x70 <= c.address <= 0x77) then
      Error(InvalidConfig, AddressRange)
    else if c.offlineThreshold == 0 then
      Error(InvalidConfig, ThresholdRange)
    else OK
  }

  function Unbind(d: Dev): Dev {
    FRESH_DEV.(totalFailures := d.totalFailures, totalSuccess := d.totalSuccess)
  }

  function Forget(d: Dev): Dev {
    d.(obs := d.obs.(provenance := Unknown))
  }

  function UpdateHealth(d: Dev, st: Status, clock: u32): Dev {
    var now := if d.config.hasClock then clock else 0;
    if st.IsOk() then
      d.(lastOkMs := now,
         totalSuccess := if d.totalSuccess < U32_MAX then d.totalSuccess + 1 else d.totalSuccess,
         consecutiveFailures := 0, initialized := true, state := Ready)
    else
      var run := if d.consecutiveFailures < 255 then d.consecutiveFailures + 1 else d.consecutiveFailures;
      d.(lastError := st, lastErrorMs := now,
         totalFailures := if d.totalFailures < U32_MAX then d.totalFailures + 1 else d.totalFailures,
         consecutiveFailures := run,
         state := if !d.initialized then d.state
                  else if run >= d.config.offlineThreshold then Offline else Degraded)
  }

  /** One write of the control byte on a bound driver. */
  function WriteControl(w: World, mask: Byte, r: Reply): (World, Status) {
    var st := MapTransportStatus(r.transport);
    var d := UpdateHealth(w.dev, st, r.now);
    var d' := if st.IsOk() then d.(obs := Observation(mask, WriteCompleted)) else Forget(d);
    (World(d', if st.IsOk() then mask else r.after, w.history + [Wrote(mask, st)], false), st)
  }

  /** One read of the control byte on a bound driver; `out` is the caller's variable. */
  function ReadControl(w: World, out: Byte, tracked: bool, r: Reply): (World, Status, Byte) {
    var st := MapTransportStatus(r.transport);
    var d := if tracked then UpdateHealth(w.dev, st, r.now) else w.dev;
    var d' := if st.IsOk() then d.(obs := Observation(w.hw, ReadbackObserved)) else Forget(d);
    (World(d', w.hw, w.history + [ReadBack(w.hw, st, tracked)], false), st, if st.IsOk() then w.hw else out)
  }

  function WriteIfBound(w: World, mask: Byte, r: Reply): (World, Status) {
    if w.dev.bound then WriteControl(w, mask, r) else (w, NOT_BOUND)
  }

  function ReadIfBound(w: World, out: Byte, tracked: bool, r: Reply): (World, Status, Byte) {
    if w.dev.bound then ReadControl(w, out, tracked, r) else (w, NOT_BOUND, out)
  }

  function DoBegin(w: World, c: Config, r: Reply): (World, Status) {
    if w.dev.bound then (w, Error(Busy, AlreadyBound))
    else if !ConfigError(c).IsOk() then (w, ConfigError(c))
    else
      var d := Unbind(w.dev).(config := c, bound := true);
      var (w', st, _) := ReadControl(w.(dev := d, history := w.history + [BoundWith(c.offlineThreshold)]), 0, true, r);
      (w', st)
  }

  /** The cache is forgotten before the RESET callback runs; the callback may leave any byte. */
  function Pulse(w: World, p: ResetReply): World {
    World(Forget(w.dev), p.after, w.history + [Pulsed(p.status)], false)
  }

  function DoHardReset(w: World, p: ResetReply, r: Reply): (World, Status) {
    if !w.dev.bound then (w, NOT_BOUND)
    else if !w.dev.config.hasReset then (w, Error(Unsupported, ResetNotConfigured))
    else
      var w1 := Pulse(w, p);
      if !p.status.IsOk() && !p.status.code.Timeout? && !p.status.code.ResetError? then
        (w1, Error(InvalidConfig, ResetCodeInvalid, ErrNumber(p.status.code)))
      else if !p.status.IsOk() then (w1, p.status)
      else
        var (w2, st, observed) := ReadControl(w1, 0, true, r);
        if !st.IsOk() then (w2, st)
        else if observed != 0 then (w2, Error(ResetStateMismatch, ResetByteNotZero, observed))
        else (w2, OK)
  }

  /** What one call does, given the environment's answers it carries. */
  function Do(w: World, c: Call): (World, Status) {
    match c
    case Begin(config, r) => DoBegin(w, config, r)
    case End => (w.(dev := Unbind(w.dev), history := w.history + [Released]), OK)
    case Probe(r) => var (w', st, _) := ReadIfBound(w, 0, false, r); (w', st)
    case Recover(r) => WriteIfBound(w, 0, r)
    case HardReset(p, r) => DoHardReset(w, p, r)
    case Select(ch, r) =>
      if !w.dev.bound then (w, NOT_BOUND)
      else if ch >= 8 then (w, Error(InvalidParam, ChannelRange))
      else WriteControl(w, One(ch), r)
    case WriteMask(mask, r) => WriteIfBound(w, mask, r)
    case DisableAll(r) => WriteIfBound(w, 0, r)
    case ReadMask(r) => var (w', st, _) := ReadIfBound(w, 0, true, r); (w', st)
    case Invalidate => (w.(dev := Forget(w.dev), drifted := false), OK)
    case ExternalChange(b) => (w.(hw := b, drifted := true), OK)
  }

  function Run(w: World, calls: seq<Call>): World
    decreases |calls|
  {
    if calls == [] then w
    else Do(Run(w, calls[..|calls| - 1]), calls[|calls| - 1]).0
  }

  function PowerOn(hw: Byte): World {
    World(FRESH_DEV, hw, [], false)
  }
}
