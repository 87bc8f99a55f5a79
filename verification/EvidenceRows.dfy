/** What the runner's searches establish about any printout, whoever printed it. */
module EvidenceRows {
  import opened Base
  import opened StatusCodes
  import opened DriverSpec
  import opened Engine
  import opened ScanRuns
  import opened StressChecks
  import opened DiscoveryChecks
  import opened ScanChecks
  import HealthText

  /** Exactly one row satisfies `p`: the one at `k`. */
  predicate OnlyAt(rows: seq<Row>, p: Row -> bool, k: nat) {
    k < |rows| && p(rows[k]) && forall i: nat :: i < |rows| && i != k ==> !p(rows[i])
  }

  lemma {:induction false} OnlyFound(rows: seq<Row>, p: Row -> bool) returns (k: nat)
    requires |FindAll(rows, p)| == 1
    ensures OnlyAt(rows, p, k) && FindAll(rows, p) == [rows[k]]
    decreases |rows|
  {
    var n := |rows| - 1;
    if p(rows[n]) {
      k := n;
      NoneFound(rows[..n], p);
    } else {
      k := OnlyFound(rows[..n], p);
    }
  }

  lemma {:induction false} NoneFound(rows: seq<Row>, p: Row -> bool)
    requires FindAll(rows, p) == []
    ensures forall i: nat :: i < |rows| ==> !p(rows[i])
    decreases |rows|
  {
    if rows != [] {
      NoneFound(rows[..|rows| - 1], p);
      assert forall i: nat :: i < |rows| - 1 ==> rows[..|rows| - 1][i] == rows[i];
    }
  }

  /** A search that must find one row, and judges it by `q`, asks for exactly one match, which `q` accepts. */
  lemma SearchMeans(rows: seq<Row>, p: Row -> bool, q: Row -> bool)
    ensures |FindAll(rows, p)| == 1 && q(FindAll(rows, p)[0]) <==> exists k: nat :: OnlyAt(rows, p, k) && q(rows[k])
  {
    if |FindAll(rows, p)| == 1 {
      var k := OnlyFound(rows, p);
    }
    forall k: nat | OnlyAt(rows, p, k)
      ensures FindAll(rows, p) == [rows[k]]
    {
      SelectUnique(rows, k, p);
    }
  }

  predicate AnyRow(r: Row) {
    true
  }

  // ---- stress --------------------------------------------------------------------------------

  predicate FullResult(r: Row, count: u32) {
    r.StressResults? && r.completed == count && r.requested == count && r.code.Ok? && r.safeOff
  }

  predicate FullTransfers(r: Row, mix: bool, count: u32) {
    r.SessionTransfers? && r.failure == 0 && r.success == if mix then 7 * count + 2 else 2 * count + 2
  }

  /** Any accepted stress printout shows, each exactly once: its result, complete and safe; a health
      delta without failures; and the session's transfers, 2N+2 or 7N+2 of them and none failed. */
  lemma StressEvidence(rows: seq<Row>, mix: bool, count: u32)
    ensures StressAccepted(rows, mix, count) <==>
      && NoAlarm(rows)
      && (exists k: nat :: OnlyAt(rows, IsResult, k) && FullResult(rows[k], count))
      && (exists k: nat :: OnlyAt(rows, IsCleanDelta, k) && AnyRow(rows[k]))
      && (exists k: nat :: OnlyAt(rows, IsTransfers, k) && FullTransfers(rows[k], mix, count))
  {
    SearchMeans(rows, IsResult, r => FullResult(r, count));
    SearchMeans(rows, IsCleanDelta, AnyRow);
    SearchMeans(rows, IsTransfers, r => FullTransfers(r, mix, count));
    assert FindAll(rows, IsResult) == [StressResults(count, count, Err.Ok, true)] <==>
           |FindAll(rows, IsResult)| == 1 && FullResult(FindAll(rows, IsResult)[0], count);
  }

  // ---- discovery -----------------------------------------------------------------------------

  /** A detection row that agrees with the list of found addresses. */
  predicate Agrees(r: Row, addresses: seq<nat>) {
    && r.Detection? && r.tested == 8 && r.errors == 0 && r.ack == |addresses| && r.absent == 8 - |addresses|
    && 112 <= r.target <= 119 && r.verdict == if r.target in addresses then AckYes else AckNo
  }

  predicate FullDiscovery(r: Row, addresses: seq<nat>) {
    r.ScanDone? && r.kind.Discover? && r.complete && r.devices == |addresses| && r.errors == 0
  }

  /** Any accepted discovery printout shows, each exactly once: a detection row of all eight candidates
      that agrees with the found addresses, distinct and in range; its completion; and its pass. */
  lemma DiscoveryEvidence(rows: seq<Row>)
    ensures var addresses := FoundIn(rows);
            DiscoveryAccepted(rows) <==>
              && NoAlarm(rows) && Distinct(addresses) && (forall a :: a in addresses ==> 112 <= a <= 119)
              && (exists k: nat :: OnlyAt(rows, IsDetection, k) && Agrees(rows[k], addresses))
              && (exists k: nat :: OnlyAt(rows, IsCleanDiscover, k) && FullDiscovery(rows[k], addresses))
              && (exists k: nat :: OnlyAt(rows, IsDiscoverPass, k) && AnyRow(rows[k]))
  {
    var addresses := FoundIn(rows);
    SearchMeans(rows, IsDetection, r => Agrees(r, addresses));
    SearchMeans(rows, IsCleanDiscover, r => FullDiscovery(r, addresses));
    SearchMeans(rows, IsDiscoverPass, AnyRow);
    var done := FindAll(rows, IsCleanDiscover);
    assert done == [ScanDone(Discover, true, |addresses|, 0)] <==> |done| == 1 && FullDiscovery(done[0], addresses);
  }

  // ---- scan ----------------------------------------------------------------------------------

  predicate FullScan(r: Row, addresses: seq<nat>) {
    r.ScanDone? && r.kind.Scan? && r.complete && r.errors == 0 && r.devices == |addresses|
  }

  /** Any accepted scan printout shows its completion once, counting the found addresses, distinct and
      in range, a single OK topology read, and the scanning line. */
  lemma ScanEvidence(rows: seq<Row>, strict: bool)
    ensures var addresses := FoundIn(rows);
            ScanAccepted(rows, strict) <==>
              && Silent(rows, strict) && Distinct(addresses) && (forall a :: a in addresses ==> 8 <= a <= 119)
              && (exists k: nat :: OnlyAt(rows, IsScanDone, k) && FullScan(rows[k], addresses))
              && (exists k: nat :: OnlyAt(rows, IsOkTopology, k) && AnyRow(rows[k]))
              && Scanning in rows
  {
    var addresses := FoundIn(rows);
    SearchMeans(rows, IsScanDone, r => FullScan(r, addresses));
    SearchMeans(rows, IsOkTopology, AnyRow);
    ScanningFound(rows);
    if |FindAll(rows, IsScanDone)| == 1 {
      var k := OnlyFound(rows, IsScanDone);
    }
  }

  lemma ScanningFound(rows: seq<Row>)
    ensures FindAll(rows, IsScanning) == [] <==> Scanning !in rows
  {
    if FindAll(rows, IsScanning) == [] {
      NoneFound(rows, IsScanning);
    } else if Scanning !in rows {
      assert forall r :: r in rows ==> !IsScanning(r);
      SelectNone(rows, IsScanning);
    }
  }

  // ---- status names --------------------------------------------------------------------------

  /** The words the runner's status patterns look for. */
  predicate AlarmingName(s: string) {
    || s == "I2C_ERROR" || s == "I2C_TIMEOUT" || s == "I2C_BUS" || s == "I2C_NACK_ADDR" || s == "I2C_NACK_DATA"
    || s == "DEVICE_NOT_FOUND" || s == "NOT_INITIALIZED" || s == "INVALID_CONFIG" || s == "INVALID_PARAM"
    || s == "RESET_ERROR" || s == "RESET_STATE_MISMATCH"
  }

  /** A status alarms exactly if the name printed for its code is one of those words. */
  lemma AlarmingNames(e: Err)
    ensures BusCode(e) <==> AlarmingName(HealthText.ErrorName(e))
  {
  }
}
