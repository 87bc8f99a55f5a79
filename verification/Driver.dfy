/** The managed driver object. Its fields are updated in place; each method is proved to
    do what `DriverSpec.Do` says, for every answer of the environment. */
module Driver {
  import opened Base
  import opened StatusCodes
  import opened DriverSpec

  /** The injected transport and the chip behind it. `reply` is the environment's choice. */
  class Bus {
    var byte: Byte
    ghost var history: seq<Event>
    ghost var drifted: bool

    constructor (b: Byte)
      ensures byte == b && history == [] && !drifted
    {
      byte, history, drifted := b, [], false;
    }

    method Write(mask: Byte, reply: Reply) returns (t: TransportStatus)
      modifies this
      ensures t == reply.transport && !drifted
      ensures byte == if t.code.TrOk? then mask else reply.after
      ensures history == old(history) + [Wrote(mask, MapTransportStatus(t))]
    {
      t := reply.transport;
      byte := if t.code.TrOk? then mask else reply.after;
      history, drifted := history + [Wrote(mask, MapTransportStatus(t))], false;
    }

    method WriteRead(reply: Reply, ghost tracked: bool) returns (t: TransportStatus, b: Byte)
      modifies this`history, this`drifted
      ensures t == reply.transport && b == byte && !drifted
      ensures history == old(history) + [ReadBack(byte, MapTransportStatus(t), tracked)]
    {
      t, b := reply.transport, byte;
      history, drifted := history + [ReadBack(byte, MapTransportStatus(t), tracked)], false;
    }

    method PulseReset(pulse: ResetReply) returns (st: Status)
      modifies this
      ensures st == pulse.status && byte == pulse.after && !drifted
      ensures history == old(history) + [Pulsed(st)]
    {
      st, byte := pulse.status, pulse.after;
      history, drifted := history + [Pulsed(st)], false;
    }

    /** POR, another controller, or anything else the driver does not see. */
    method ChangeOutside(b: Byte)
      modifies this
      ensures byte == b && drifted && history == old(history)
    {
      byte, drifted := b, true;
    }
  }

  class Tca9548a {
    const bus: Bus
    var config: Config
    var bound: bool
    var initialized: bool
    var driverState: DriverState
    var lastOkMs: u32
    var lastErrorMs: u32
    var lastError: Status
    var consecutiveFailures: Byte
    var totalFailures: u32
    var totalSuccess: u32
    var maskObservation: Observation

    ghost function View(): Dev
      reads this
    {
      Dev(config, bound, initialized, driverState, lastOkMs, lastErrorMs, lastError,
          consecutiveFailures, totalFailures, totalSuccess, maskObservation)
    }

    ghost function State(): World
      reads this, bus
    {
      World(View(), bus.byte, bus.history, bus.drifted)
    }

    constructor (bus: Bus)
      requires bus.history == [] && !bus.drifted
      ensures State() == PowerOn(bus.byte) && this.bus == bus
    {
      this.bus := bus;
      config := NEUTRAL_CONFIG;
      bound := false;
      initialized := false;
      driverState := Uninit;
      lastOkMs, lastErrorMs, lastError := 0, 0, OK;
      consecutiveFailures, totalFailures, totalSuccess := 0, 0, 0;
      maskObservation := NO_OBSERVATION;
    }

    method Begin(c: Config, r: Reply) returns (st: Status)
      modifies this, bus
      ensures (State(), st) == Do(old(State()), DriverSpec.Begin(c, r))
    {
      if bound {
        return Error(Busy, AlreadyBound);
      }
      if !c.hasWrite || !c.hasRead {
        return Error(InvalidConfig, CallbacksNotSet);
      }
      if c.i2cTimeoutMs == 0 || c.i2cTimeoutMs > MAX_CALLBACK_TIMEOUT_MS {
        return Error(InvalidConfig, TimeoutRange);
      }
      if c.resetTimeoutMs == 0 || c.resetTimeoutMs > MAX_CALLBACK_TIMEOUT_MS {
        return Error(InvalidConfig, ResetTimeoutRange);
      }
      if c.address < 0x70 || c.address > 0x77 {
        return Error(InvalidConfig, AddressRange);
      }
      if c.offlineThreshold == 0 {
        return Error(InvalidConfig, ThresholdRange);
      }
      ResetBindingState();
      config := c;
      bound := true;
      bus.history := bus.history + [BoundWith(c.offlineThreshold)];
      var observed: Byte;
      st, observed := ReadControlByte(0, true, r);
    }

    method End()
      modifies this, bus
      ensures State() == Do(old(State()), DriverSpec.End).0
    {
      ResetBindingState();
      bus.history := bus.history + [Released];
    }

    method Probe(r: Reply) returns (st: Status)
      modifies this, bus
      ensures (State(), st) == Do(old(State()), DriverSpec.Probe(r))
    {
      if !bound {
        return NOT_BOUND;
      }
      var observed: Byte;
      st, observed := ReadControlByte(0, false, r);
    }

    method Recover(r: Reply) returns (st: Status)
      modifies this, bus
      ensures (State(), st) == Do(old(State()), DriverSpec.Recover(r))
    {
      st := DisableAll(r);
    }

    method HardReset(p: ResetReply, r: Reply) returns (st: Status)
      modifies this, bus
      ensures (State(), st) == Do(old(State()), DriverSpec.HardReset(p, r))
    {
      if !bound {
        return NOT_BOUND;
      }
      if !config.hasReset {
        return Error(Unsupported, ResetNotConfigured);
      }
      InvalidateChannelMask();
      var resetStatus := bus.PulseReset(p);
      if !resetStatus.IsOk() && !resetStatus.code.Timeout? && !resetStatus.code.ResetError? {
        return Error(InvalidConfig, ResetCodeInvalid, ErrNumber(resetStatus.code));
      }
      if !resetStatus.IsOk() {
        return resetStatus;
      }
      var observed: Byte;
      st, observed := ReadControlByte(0, true, r);
      if !st.IsOk() {
        return st;
      }
      if observed != 0 {
        return Error(ResetStateMismatch, ResetByteNotZero, observed);
      }
      return OK;
    }

    method SelectChannel(channel: Byte, r: Reply) returns (st: Status)
      modifies this, bus
      ensures (State(), st) == Do(old(State()), Select(channel, r))
      ensures st.IsOk() ==> channel < 8 && forall j: nat :: Bit(bus.byte, j) <==> j == channel
    {
      if !bound {
        return NOT_BOUND;
      }
      var mask := One(channel);
      if mask == 0 {
        return Error(InvalidParam, ChannelRange);
      }
      OneHot(channel);
      st := WriteControlByte(mask, r);
    }

    method WriteChannelMask(mask: Byte, r: Reply) returns (st: Status)
      modifies this, bus
      ensures (State(), st) == Do(old(State()), WriteMask(mask, r))
    {
      if !bound {
        return NOT_BOUND;
      }
      st := WriteControlByte(mask, r);
    }

    method DisableAll(r: Reply) returns (st: Status)
      modifies this, bus
      ensures (State(), st) == WriteIfBound(old(State()), 0, r)
    {
      st := WriteChannelMask(0, r);
    }

    /** `out` is the caller's variable; it is assigned only by a successful read. */
    method ReadChannelMask(out: Byte, r: Reply) returns (st: Status, mask: Byte)
      modifies this, bus
      ensures (State(), st, mask) == ReadIfBound(old(State()), out, true, r)
    {
      if !bound {
        return NOT_BOUND, out;
      }
      st, mask := ReadControlByte(out, true, r);
    }

    method InvalidateChannelMask()
      modifies this, bus
      ensures State() == Do(old(State()), Invalidate).0
    {
      maskObservation := maskObservation.(provenance := Unknown);
      bus.drifted := false;
    }

    method WriteControlByte(mask: Byte, r: Reply) returns (st: Status)
      requires bound
      modifies this, bus
      ensures (State(), st) == WriteControl(old(State()), mask, r)
    {
      var t := bus.Write(mask, r);
      st := MapTransportStatus(t);
      UpdateHealth(st, r.now);
      if !st.IsOk() {
        InvalidateChannelMask();
        return;
      }
      maskObservation := Observation(mask, WriteCompleted);
    }

    method ReadControlByte(out: Byte, tracked: bool, r: Reply) returns (st: Status, mask: Byte)
      requires bound
      modifies this, bus
      ensures (State(), st, mask) == ReadControl(old(State()), out, tracked, r)
    {
      var t, byte := bus.WriteRead(r, tracked);
      st, mask := MapTransportStatus(t), out;
      if tracked {
        UpdateHealth(st, r.now);
      }
      if !st.IsOk() {
        InvalidateChannelMask();
        return;
      }
      mask := byte;
      maskObservation := Observation(mask, ReadbackObserved);
    }

    method UpdateHealth(st: Status, clock: u32)
      modifies this
      ensures View() == DriverSpec.UpdateHealth(old(View()), st, clock)
    {
      var now := if config.hasClock then clock else 0;
      if st.IsOk() {
        lastOkMs := now;
        if totalSuccess < U32_MAX {
          totalSuccess := totalSuccess + 1;
        }
        consecutiveFailures := 0;
        initialized := true;
        driverState := Ready;
        return;
      }
      lastError := st;
      lastErrorMs := now;
      if totalFailures < U32_MAX {
        totalFailures := totalFailures + 1;
      }
      if consecutiveFailures < 255 {
        consecutiveFailures := consecutiveFailures + 1;
      }
      if !initialized {
        return;
      }
      driverState := if consecutiveFailures >= config.offlineThreshold then Offline else Degraded;
    }

    method ResetBindingState()
      modifies this
      ensures View() == Unbind(old(View()))
    {
      config := NEUTRAL_CONFIG;
      bound := false;
      initialized := false;
      driverState := Uninit;
      lastOkMs := 0;
      lastErrorMs := 0;
      lastError := OK;
      consecutiveFailures := 0;
      maskObservation := NO_OBSERVATION;
    }
  }
}
