/** What the driver's counters, state and cached mask mean in terms of the unbounded record. */
module DriverProofs {
  import opened Base
  import opened StatusCodes
  import opened DriverSpec

  // ---- the record, read without any counter -----------------------------------

  predicate Tracked(e: Event) {
    e.Wrote? || (e.ReadBack? && e.tracked)
  }

  predicate Rebinds(e: Event) {
    e.BoundWith? || e.Released?
  }

  /** Tracked transfers that succeeded, over the object's whole life. */
  function Successes(h: seq<Event>): nat {
    if h == [] then 0
    else Successes(h[..|h| - 1]) + if Tracked(h[|h| - 1]) && h[|h| - 1].status.IsOk() then 1 else 0
  }

  /** Tracked transfers that failed, over the object's whole life. */
  function Failures(h: seq<Event>): nat {
    if h == [] then 0
    else Failures(h[..|h| - 1]) + if Tracked(h[|h| - 1]) && !h[|h| - 1].status.IsOk() then 1 else 0
  }

  /** The part of the record that belongs to the current binding. */
  function Binding(h: seq<Event>): seq<Event> {
    if h == [] || Rebinds(h[|h| - 1]) then [] else Binding(h[..|h| - 1]) + [h[|h| - 1]]
  }

  /** Failed tracked transfers since the last successful one of this binding. */
  function FailureRun(h: seq<Event>): nat {
    if h == [] || Rebinds(h[|h| - 1]) then 0
    else
      var e := h[|h| - 1];
      if !Tracked(e) then FailureRun(h[..|h| - 1])
      else if e.status.IsOk() then 0
      else FailureRun(h[..|h| - 1]) + 1
  }

  /** Status of the binding's most recent failed tracked transfer; it outlives later successes. */
  function LastFailure(h: seq<Event>): Status {
    if h == [] || Rebinds(h[|h| - 1]) then OK
    else if Tracked(h[|h| - 1]) && !h[|h| - 1].status.IsOk() then h[|h| - 1].status
    else LastFailure(h[..|h| - 1])
  }

  function Threshold(h: seq<Event>): Byte {
    if h == [] || h[|h| - 1].Released? then 0
    else if h[|h| - 1].BoundWith? then h[|h| - 1].threshold
    else Threshold(h[..|h| - 1])
  }

  /** The true, uncapped counts of a record. */
  datatype Tally = Tally(successes: nat, failures: nat, seen: nat, run: nat, threshold: Byte, lastError: Status) {
    /** The documented meaning of the four states. */
    function State(): DriverState {
      if seen == 0 then Uninit
      else if run == 0 then Ready
      else if run < threshold then Degraded
      else Offline
    }

    function After(e: Event): Tally {
      if e.BoundWith? then this.(seen := 0, run := 0, threshold := e.threshold, lastError := OK)
      else if e.Released? then this.(seen := 0, run := 0, threshold := 0, lastError := OK)
      else if !Tracked(e) then this
      else if e.status.IsOk() then this.(successes := successes + 1, seen := seen + 1, run := 0)
      else this.(failures := failures + 1, run := run + 1, lastError := e.status)
    }
  }

  /** The tally of a record, event by event; `seen` counts the current binding's successes. */
  function TallyOf(h: seq<Event>): Tally {
    if h == [] then Tally(0, 0, 0, 0, 0, OK) else TallyOf(h[..|h| - 1]).After(h[|h| - 1])
  }

  /** The driver's fields show the tally: totals capped at 2^32-1, the run at 255, the state exact. */
  predicate Matches(d: Dev, t: Tally) {
    && d.totalSuccess == Cap32(t.successes)
    && d.totalFailures == Cap32(t.failures)
    && d.consecutiveFailures == Min(t.run, 255)
    && d.initialized == (t.seen > 0)
    && d.state == t.State()
    && d.bound == (t.threshold > 0)
    && (d.bound ==> d.config.offlineThreshold == t.threshold)
    && (!d.bound ==> t.seen == 0 && t.run == 0)
    && t.seen <= t.successes
    && d.lastError == t.lastError
  }

  predicate HealthMatches(w: World) {
    Matches(w.dev, TallyOf(w.history))
  }

  /** A mask the driver claims to know is the chip's. */
  predicate CacheTrue(w: World) {
    w.dev.obs.Known() && !w.drifted ==> w.dev.obs.mask == w.hw
  }

  /** One more event moves the tally by one step. */
  lemma Extend(h: seq<Event>, e: Event)
    ensures TallyOf(h + [e]) == TallyOf(h).After(e)
  {
    assert (h + [e])[..|h|] == h;
  }

  lemma ExtendCounts(h: seq<Event>, e: Event)
    ensures Successes(h + [e]) == Successes(h) + if Tracked(e) && e.status.IsOk() then 1 else 0
    ensures Failures(h + [e]) == Failures(h) + if Tracked(e) && !e.status.IsOk() then 1 else 0
  {
    assert (h + [e])[..|h|] == h;
  }

  /** The running tally is what the record says when read as a whole. */
  lemma {:induction false} TallyReads(h: seq<Event>)
    ensures var t := TallyOf(h);
            && t.successes == Successes(h) && t.failures == Failures(h)
            && t.seen == Successes(Binding(h)) && t.run == FailureRun(h) && t.threshold == Threshold(h)
            && t.lastError == LastFailure(h)
    decreases |h|
  {
    if h != [] {
      TallyReads(h[..|h| - 1]);
      if !Rebinds(h[|h| - 1]) {
        ExtendCounts(Binding(h[..|h| - 1]), h[|h| - 1]);
      }
    }
  }

  lemma MatchesTransfer(d: Dev, t: Tally, st: Status, clock: u32, e: Event)
    requires Matches(d, t) && d.bound && Tracked(e) && e.status == st
    ensures Matches(UpdateHealth(d, st, clock), t.After(e)) && UpdateHealth(d, st, clock).bound
  {
  }

  /** Every call keeps the counters, the state and the cached mask true to the record. */
  lemma CallKeepsTruth(w: World, c: Call)
    requires HealthMatches(w) && CacheTrue(w)
    ensures HealthMatches(Do(w, c).0) && CacheTrue(Do(w, c).0)
  {
    if c.Begin? {
      BeginKeepsTruth(w, c.config, c.reply);
    } else if c.HardReset? {
      ResetKeepsTruth(w, c.pulse, c.reply);
    } else if c.End? {
      Extend(w.history, Released);
    } else if c.Invalidate? || c.ExternalChange? {
    } else if w.dev.bound {
      var mask := if c.Select? then One(c.channel) else if c.WriteMask? then c.mask else 0;
      TransferKeepsTruth(w, mask, !c.Probe?, c.reply);
    }
  }

  lemma BeginKeepsTruth(w: World, c: Config, r: Reply)
    requires HealthMatches(w) && CacheTrue(w)
    ensures HealthMatches(DoBegin(w, c, r).0) && CacheTrue(DoBegin(w, c, r).0)
  {
    if !w.dev.bound && ConfigError(c).IsOk() {
      Extend(w.history, BoundWith(c.offlineThreshold));
      var d := Unbind(w.dev).(config := c, bound := true);
      TransferKeepsTruth(w.(dev := d, history := w.history + [BoundWith(c.offlineThreshold)]), 0, true, r);
    }
  }

  lemma PulseKeepsTruth(w: World, p: ResetReply)
    requires HealthMatches(w) && w.dev.bound
    ensures HealthMatches(Pulse(w, p)) && CacheTrue(Pulse(w, p))
  {
    Extend(w.history, Pulsed(p.status));
  }

  lemma ResetKeepsTruth(w: World, p: ResetReply, r: Reply)
    requires HealthMatches(w) && CacheTrue(w)
    ensures HealthMatches(DoHardReset(w, p, r).0) && CacheTrue(DoHardReset(w, p, r).0)
  {
    if w.dev.bound {
      PulseKeepsTruth(w, p);
      TransferKeepsTruth(Pulse(w, p), 0, true, r);
    }
  }

  lemma MatchesAnyMask(d: Dev, t: Tally, obs: Observation)
    requires Matches(d, t)
    ensures Matches(d.(obs := obs), t)
  {
  }

  /** A record one event longer, and fields that follow the tally by that event. */
  lemma FieldsFollow(w: World, w': World, d: Dev, e: Event)
    requires w'.history == w.history + [e] && Matches(d, TallyOf(w.history).After(e))
    requires w'.dev == d.(obs := w'.dev.obs)
    ensures HealthMatches(w')
  {
    Extend(w.history, e);
    MatchesAnyMask(d, TallyOf(w.history).After(e), w'.dev.obs);
  }

  lemma WriteKeepsTruth(w: World, mask: Byte, r: Reply)
    requires HealthMatches(w) && w.dev.bound
    ensures var w' := WriteControl(w, mask, r).0; HealthMatches(w') && CacheTrue(w') && w'.dev.bound
  {
    var st := MapTransportStatus(r.transport);
    MatchesTransfer(w.dev, TallyOf(w.history), st, r.now, Wrote(mask, st));
    FieldsFollow(w, WriteControl(w, mask, r).0, UpdateHealth(w.dev, st, r.now), Wrote(mask, st));
  }

  lemma ReadKeepsTruth(w: World, out: Byte, tracked: bool, r: Reply)
    requires HealthMatches(w) && w.dev.bound
    ensures var w' := ReadControl(w, out, tracked, r).0; HealthMatches(w') && CacheTrue(w') && w'.dev.bound
  {
    var st := MapTransportStatus(r.transport);
    var e := ReadBack(w.hw, st, tracked);
    if tracked { MatchesTransfer(w.dev, TallyOf(w.history), st, r.now, e); }
    FieldsFollow(w, ReadControl(w, out, tracked, r).0, if tracked then UpdateHealth(w.dev, st, r.now) else w.dev, e);
  }

  lemma TransferKeepsTruth(w: World, mask: Byte, tracked: bool, r: Reply)
    requires HealthMatches(w) && w.dev.bound
    ensures var w' := WriteControl(w, mask, r).0; HealthMatches(w') && CacheTrue(w') && w'.dev.bound
    ensures var w' := ReadControl(w, mask, tracked, r).0; HealthMatches(w') && CacheTrue(w') && w'.dev.bound
  {
    WriteKeepsTruth(w, mask, r);
    ReadKeepsTruth(w, mask, tracked, r);
  }

  lemma {:induction false} TruthHolds(hw: Byte, calls: seq<Call>)
    ensures var w := Run(PowerOn(hw), calls); HealthMatches(w) && CacheTrue(w)
    decreases |calls|
  {
    if calls != [] {
      TruthHolds(hw, calls[..|calls| - 1]);
      CallKeepsTruth(Run(PowerOn(hw), calls[..|calls| - 1]), calls[|calls| - 1]);
    }
  }

  /** The documented meaning of the four states, read from the record as a whole. */
  function StateOf(h: seq<Event>): DriverState {
    if Successes(Binding(h)) == 0 then Uninit
    else if FailureRun(h) == 0 then Ready
    else if FailureRun(h) < Threshold(h) then Degraded
    else Offline
  }

  /** For every sequence of calls, environment answers and outside changes, starting at
      power-on: totals are the true counts capped at 2^32-1, the consecutive count is the
      binding's failure run capped at 255, the state is the documented function of the
      uncapped record, the sticky error is the binding's latest failure, and a known mask is the chip's unless an unreported change is pending. */
  lemma HealthRefinesHistory(hw: Byte, calls: seq<Call>)
    ensures var w := Run(PowerOn(hw), calls); var d, h := w.dev, w.history;
            && d.totalSuccess == Cap32(Successes(h)) && d.totalFailures == Cap32(Failures(h))
            && d.consecutiveFailures == Min(FailureRun(h), 255)
            && d.initialized == (Successes(Binding(h)) > 0) && d.bound == (Threshold(h) > 0)
            && d.state == StateOf(h) && d.lastError == LastFailure(h)
            && CacheTrue(w)
  {
    TruthHolds(hw, calls);
    TallyReads(Run(PowerOn(hw), calls).history);
  }

  // ---- what the record functions mean ------------------------------------------

  /** Verdicts of the tracked transfers of a record, oldest first. */
  function Verdicts(h: seq<Event>): seq<bool> {
    if h == [] then []
    else Verdicts(h[..|h| - 1]) + if Tracked(h[|h| - 1]) then [h[|h| - 1].status.IsOk()] else []
  }

  /** `FailureRun` is the length of the trailing block of failures among the binding's tracked transfers. */
  lemma {:induction false} FailureRunIsTrailing(h: seq<Event>)
    ensures var v, n := Verdicts(Binding(h)), FailureRun(h);
            && n <= |v|
            && (forall i :: |v| - n <= i < |v| ==> !v[i])
            && (n < |v| ==> v[|v| - n - 1])
    decreases |h|
  {
    if h != [] && !Rebinds(h[|h| - 1]) {
      var p := h[..|h| - 1];
      FailureRunIsTrailing(p);
      assert (Binding(p) + [h[|h| - 1]])[..|Binding(p)|] == Binding(p);
    }
  }

  /** The capped count crosses the threshold exactly when the true run does. */
  lemma SaturationNeverHidesOffline(hw: Byte, calls: seq<Call>)
    ensures var w := Run(PowerOn(hw), calls);
            && (w.dev.state.Offline? <==>
                  Successes(Binding(w.history)) > 0 && FailureRun(w.history) >= Threshold(w.history))
            && (w.dev.initialized ==>
                  (w.dev.consecutiveFailures >= w.dev.config.offlineThreshold <==> w.dev.state.Offline?))
            && (w.dev.state.Ready? ==> w.dev.bound && w.dev.initialized && w.dev.consecutiveFailures == 0
                                       && w.dev.totalSuccess > 0)
  {
    TruthHolds(hw, calls);
    TallyReads(Run(PowerOn(hw), calls).history);
  }

  // ---- calls seen from outside --------------------------------------------------

  /** Two worlds that differ at most in health history. */
  predicate SameButHealth(v: World, w: World) {
    && v.dev.config == w.dev.config && v.dev.bound == w.dev.bound && v.dev.obs == w.dev.obs
    && v.hw == w.hw && v.drifted == w.drifted && v.history == w.history
  }

  lemma TransferNeverGates(v: World, w: World, mask: Byte, tracked: bool, r: Reply)
    requires SameButHealth(v, w)
    ensures SameButHealth(WriteControl(v, mask, r).0, WriteControl(w, mask, r).0)
    ensures SameButHealth(ReadControl(v, mask, tracked, r).0, ReadControl(w, mask, tracked, r).0)
  {
  }

  /** Health is passive: two drivers that differ only in health history make the same bus
      transfers, leave the same byte, learn the same mask and return the same status. */
  lemma HealthNeverGates(v: World, w: World, c: Call)
    requires SameButHealth(v, w)
    ensures SameButHealth(Do(v, c).0, Do(w, c).0) && Do(v, c).1 == Do(w, c).1
  {
    if c.Begin? {
      if !v.dev.bound && ConfigError(c.config).IsOk() {
        var h := w.history + [BoundWith(c.config.offlineThreshold)];
        TransferNeverGates(v.(dev := Unbind(v.dev).(config := c.config, bound := true), history := h),
                           w.(dev := Unbind(w.dev).(config := c.config, bound := true), history := h), 0, true, c.reply);
      }
    } else if c.HardReset? {
      TransferNeverGates(Pulse(v, c.pulse), Pulse(w, c.pulse), 0, true, c.reply);
    } else if c.End? || c.Invalidate? || c.ExternalChange? {
    } else {
      var mask := if c.Select? then One(c.channel) else if c.WriteMask? then c.mask else 0;
      TransferNeverGates(v, w, mask, !c.Probe?, c.reply);
    }
  }

  /** `begin` either refuses and changes nothing at all, or binds the new configuration with fresh
      health and one tracked read, whose verdict it returns; a failed read leaves it bound. */
  lemma BeginBindsOrRefuses(w: World, c: Config, r: Reply)
    ensures var (w', st) := Do(w, Begin(c, r));
            if w.dev.bound || !ConfigError(c).IsOk() then w' == w && (st.code.Busy? || st.code.InvalidConfig?)
            else
              && w'.dev.bound && w'.dev.config == c && w'.hw == w.hw
              && w'.history == w.history + [BoundWith(c.offlineThreshold)] + [ReadBack(w.hw, st, true)]
              && (st.IsOk() <==> r.transport.code.TrOk?)
              && (if st.IsOk() then w'.dev.state.Ready? && w'.dev.obs == Observation(w.hw, ReadbackObserved)
                  else w'.dev.state.Uninit? && !w'.dev.obs.Known() && w'.dev.consecutiveFailures == 1)
    ensures ConfigError(c).IsOk() <==>
              c.hasWrite && c.hasRead && 1 <= c.i2cTimeoutMs <= 60000 && 1 <= c.resetTimeoutMs <= 60000
              && 0x70 <= c.address <= 0x77 && c.offlineThreshold > 0
  {
  }

  /** The byte a successful writing call leaves: all-off, the given mask, or the channel's bit alone. */
  predicate Leaves(c: Call, byte: Byte) {
    match c
    case Recover(_) => byte == 0
    case DisableAll(_) => byte == 0
    case WriteMask(mask, _) => byte == mask
    case Select(channel, _) => channel < 8 && byte == Pow2(channel)
    case _ => false
  }

  /** Every writing call that reports OK has left its byte on the chip and in the cache, the latter
      as written and not yet read back; one that does not has either changed nothing at all (unbound,
      or no such channel) or left the chip at any byte and the cache unknown. */
  lemma WritesLand(w: World, c: Call)
    requires c.Recover? || c.DisableAll? || c.WriteMask? || c.Select?
    ensures var (w', st) := Do(w, c);
            if st.IsOk() then w.dev.bound && Leaves(c, w'.hw) && w'.dev.obs == Observation(w'.hw, WriteCompleted) && !w'.drifted
            else if !w.dev.bound || (c.Select? && c.channel >= 8) then w' == w
            else w'.hw == c.reply.after && !w'.dev.obs.Known()
  {
    if c.Select? && c.channel < 8 { OneHot(c.channel); }
  }

  /** What a transport verdict becomes: no two verdicts are confused, and the adapter's detail
      survives every failure. */
  lemma VerdictsStayDistinct(a: TransportStatus, b: TransportStatus)
    ensures MapTransportStatus(a).IsOk() <==> a.code.TrOk?
    ensures MapTransportStatus(a).code.I2cNackAddr? <==> a.code.NackAddr?
    ensures MapTransportStatus(a).code.I2cNackData? <==> a.code.NackData?
    ensures MapTransportStatus(a).code.I2cTimeout? <==> a.code.TrTimeout?
    ensures MapTransportStatus(a).code.I2cBus? <==> a.code.Bus?
    ensures MapTransportStatus(a).code.I2cError? <==> a.code.Other?
    ensures !a.code.TrOk? ==> MapTransportStatus(a).detail == a.detail
    ensures MapTransportStatus(a) == MapTransportStatus(b) <==> a.code == b.code && (a.code.TrOk? || a.detail == b.detail)
  {
  }

  /** A tracked transfer stamps exactly the time of its own outcome, with 0 when there is no clock. */
  lemma TransfersStampOneTime(w: World, mask: Byte, r: Reply)
    ensures var now := if w.dev.config.hasClock then r.now else 0;
            forall d :: d == WriteControl(w, mask, r).0.dev || d == ReadControl(w, mask, true, r).0.dev ==>
              if r.transport.code.TrOk? then d.lastOkMs == now && d.lastErrorMs == w.dev.lastErrorMs
              else d.lastErrorMs == now && d.lastOkMs == w.dev.lastOkMs
  {
  }

  /** A probe moves nothing but the cached mask. */
  lemma ProbeNeverChangesHealth(w: World, r: Reply)
    ensures var w' := Do(w, Probe(r)).0; w'.dev.(obs := w.dev.obs) == w.dev && w'.hw == w.hw
  {
  }

  /** `hardReset` is OK exactly when RESET and the read succeed and the chip really holds 0;
      then the driver's cache says so by readback. */
  lemma HardResetVerifies(w: World, p: ResetReply, r: Reply)
    ensures var (w', st) := Do(w, HardReset(p, r));
            && (st.IsOk() <==> w.dev.bound && w.dev.config.hasReset && p.status.IsOk()
                               && r.transport.code.TrOk? && w'.hw == 0)
            && (st.IsOk() ==> w'.dev.obs == Observation(0, ReadbackObserved) && !w'.drifted)
            && (w.dev.bound && w.dev.config.hasReset && !p.status.IsOk() ==>
                  w'.history == w.history + [Pulsed(p.status)] && w'.hw == p.after && !w'.dev.obs.Known()
                  && (if p.status.code.Timeout? || p.status.code.ResetError? then st == p.status else st.code.InvalidConfig?))
            && (st.code.ResetStateMismatch? && st != p.status && w.dev.bound && w.dev.config.hasReset ==>
                  w'.dev.state.Ready? && w'.dev.obs == Observation(w'.hw, ReadbackObserved))
  {
  }

  /** Lifetime totals survive every call, `end` included, and never fall. */
  lemma {:induction false} TotalsNeverFall(w: World, calls: seq<Call>)
    ensures Run(w, calls).dev.totalSuccess >= w.dev.totalSuccess
    ensures Run(w, calls).dev.totalFailures >= w.dev.totalFailures
    ensures w.history <= Run(w, calls).history
    decreases |calls|
  {
    if calls != [] {
      TotalsNeverFall(w, calls[..|calls| - 1]);
      CallOnlyAdds(Run(w, calls[..|calls| - 1]), calls[|calls| - 1]);
    }
  }

  predicate OnlyAdds(w: World, w': World) {
    && w'.dev.totalSuccess >= w.dev.totalSuccess
    && w'.dev.totalFailures >= w.dev.totalFailures
    && w.history <= w'.history
  }

  lemma TransferOnlyAdds(w: World, mask: Byte, tracked: bool, r: Reply)
    ensures OnlyAdds(w, WriteControl(w, mask, r).0) && OnlyAdds(w, ReadControl(w, mask, tracked, r).0)
  {
  }

  lemma CallOnlyAdds(w: World, c: Call)
    ensures OnlyAdds(w, Do(w, c).0)
  {
    if c.Begin? {
      if !w.dev.bound && ConfigError(c.config).IsOk() {
        TransferOnlyAdds(w.(dev := Unbind(w.dev).(config := c.config, bound := true),
                            history := w.history + [BoundWith(c.config.offlineThreshold)]), 0, true, c.reply);
      }
    } else if c.HardReset? {
      TransferOnlyAdds(Pulse(w, c.pulse), 0, true, c.reply);
    } else if !c.End? && !c.Invalidate? && !c.ExternalChange? {
      var mask := if c.Select? then One(c.channel) else if c.WriteMask? then c.mask else 0;
      TransferOnlyAdds(w, mask, !c.Probe?, c.reply);
    }
  }
}
