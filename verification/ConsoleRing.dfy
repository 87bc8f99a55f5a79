/** The bounded console queue: a circular byte buffer that keeps or drops whole records and
    marks every loss. `Ring` is the queue on values; the class refines it on an array. */
module ConsoleRing {
  import opened Base

  const LOSS_LENGTH := 51
  const CHUNK_LIMIT := 64

  /** What became of each record, and the markers between them, in order. */
  datatype Entry = Kept(text: string) | Dropped(text: string) | Marker

  /** `mark` is the loss marker's text. */
  datatype Ring = Ring(
    capacity: nat, mark: string, head: nat, bytes: string, lossPending: bool,
    acceptedBytes: u32, droppedBytes: u32, droppedMessages: u32, rxOverflows: u32,
    delivered: string, log: seq<Entry>)

  datatype Op =
    | Append(text: string)
    | Drain(connected: bool, accepted: nat)
    | CountRxOverflow

  function SaturatingAdd(value: u32, count: nat): u32 {
    if count > U32_MAX - value then U32_MAX else value + count
  }

  function Appended(q: Ring, text: string): Ring {
    if text == "" then q
    else if q.lossPending || |text| > q.capacity - |q.bytes| then
      q.(droppedBytes := SaturatingAdd(q.droppedBytes, |text|), droppedMessages := SaturatingAdd(q.droppedMessages, 1),
         lossPending := true, log := q.log + [Dropped(text)])
    else q.(bytes := q.bytes + text, log := q.log + [Kept(text)])
  }

  /** A pending marker is queued as soon as it fits. */
  function Announced(q: Ring): Ring {
    if q.lossPending && q.capacity - |q.bytes| >= LOSS_LENGTH then
      q.(bytes := q.bytes + q.mark, lossPending := false, log := q.log + [Marker])
    else q
  }

  /** The contiguous run of bytes one drain offers to the backend. */
  function Offered(q: Ring): (n: nat)
    requires q.head < q.capacity
    ensures n <= |q.bytes| && n <= CHUNK_LIMIT && (q.bytes != [] ==> n >= 1)
  {
    Min(Min(|q.bytes|, q.capacity - q.head), CHUNK_LIMIT)
  }

  /** A backend that claims more than it was offered changes nothing. */
  function Drained(q: Ring, connected: bool, accepted: nat): Ring
    requires q.head < q.capacity
  {
    var q1 := Announced(q);
    if !connected || q1.bytes == "" || accepted > Offered(q1) then q1
    else q1.(head := (q1.head + accepted) % q1.capacity, bytes := q1.bytes[accepted..],
             acceptedBytes := SaturatingAdd(q1.acceptedBytes, accepted),
             delivered := q1.delivered + q1.bytes[..accepted])
  }

  function Apply(q: Ring, op: Op): Ring
    requires q.head < q.capacity
  {
    match op
    case Append(text) => Appended(q, text)
    case Drain(connected, accepted) => Drained(q, connected, accepted)
    case CountRxOverflow => q.(rxOverflows := SaturatingAdd(q.rxOverflows, 1))
  }

  function Empty(capacity: nat, mark: string): Ring {
    Ring(capacity, mark, 0, "", false, 0, 0, 0, 0, "", [])
  }

  function Run(q: Ring, ops: seq<Op>): (r: Ring)
    requires q.head < q.capacity
    ensures r.capacity == q.capacity && r.mark == q.mark && r.head < r.capacity
    decreases |ops|
  {
    if ops == [] then q else Apply(Run(q, ops[..|ops| - 1]), ops[|ops| - 1])
  }

  // ---- what the log means ------------------------------------------------------------

  /** The byte stream a log stands for. */
  function Stream(log: seq<Entry>, mark: string): string {
    if log == [] then ""
    else
      var e := log[|log| - 1];
      Stream(log[..|log| - 1], mark) + match e case Kept(t) => t case Dropped(_) => "" case Marker => mark
  }

  /** The records of a log, kept and dropped, in order. */
  function Records(log: seq<Entry>): seq<string> {
    if log == [] then []
    else
      var e := log[|log| - 1];
      Records(log[..|log| - 1]) + if e.Marker? then [] else [e.text]
  }

  /** The non-empty texts appended by `ops`, in order. */
  function Texts(ops: seq<Op>): seq<string> {
    if ops == [] then []
    else
      var op := ops[|ops| - 1];
      Texts(ops[..|ops| - 1]) + if op.Append? && op.text != "" then [op.text] else []
  }

  /** Input overflows reported by `ops`. */
  function Overflows(ops: seq<Op>): nat {
    if ops == [] then 0 else Overflows(ops[..|ops| - 1]) + if ops[|ops| - 1].CountRxOverflow? then 1 else 0
  }

  function LostMessages(log: seq<Entry>): nat {
    if log == [] then 0 else LostMessages(log[..|log| - 1]) + if log[|log| - 1].Dropped? then 1 else 0
  }

  function LostBytes(log: seq<Entry>): nat {
    if log == [] then 0
    else LostBytes(log[..|log| - 1]) + if log[|log| - 1].Dropped? then |log[|log| - 1].text| else 0
  }

  /** A record was dropped and its marker is not queued yet. */
  ghost predicate Owing(log: seq<Entry>) {
    exists i :: 0 <= i < |log| && log[i].Dropped? && forall k :: i < k < |log| ==> !log[k].Marker?
  }

  /** A marker stands between any dropped record and any later kept one. */
  ghost predicate Marked(log: seq<Entry>) {
    forall i, j :: 0 <= i < j < |log| && log[i].Dropped? && log[j].Kept? ==>
      exists k :: i < k < j && log[k].Marker?
  }

  ghost predicate Faithful(q: Ring, texts: seq<string>) {
    && |q.mark| == LOSS_LENGTH <= CHUNK_LIMIT <= q.capacity && q.head < q.capacity && |q.bytes| <= q.capacity
    && q.delivered + q.bytes == Stream(q.log, q.mark)
    && Records(q.log) == texts
    && Marked(q.log) && (q.lossPending <==> Owing(q.log))
    && q.acceptedBytes == Cap32(|q.delivered|)
    && q.droppedMessages == Cap32(LostMessages(q.log))
    && q.droppedBytes == Cap32(LostBytes(q.log))
  }

  lemma ExtendLog(log: seq<Entry>, e: Entry, mark: string)
    ensures Stream(log + [e], mark) == Stream(log, mark) + match e case Kept(t) => t case Dropped(_) => "" case Marker => mark
    ensures Records(log + [e]) == Records(log) + if e.Marker? then [] else [e.text]
    ensures LostMessages(log + [e]) == LostMessages(log) + if e.Dropped? then 1 else 0
    ensures LostBytes(log + [e]) == LostBytes(log) + if e.Dropped? then |e.text| else 0
  {
    assert (log + [e])[..|log|] == log;
  }

  lemma ExtendOwing(log: seq<Entry>, e: Entry)
    ensures Owing(log + [e]) <==> e.Dropped? || (Owing(log) && !e.Marker?)
    ensures Marked(log) && !(e.Kept? && Owing(log)) ==> Marked(log + [e])
  {
    var log' := log + [e];
    if e.Dropped? { assert log'[|log|].Dropped?; }
    if Owing(log) && !e.Marker? {
      var i :| 0 <= i < |log| && log[i].Dropped? && forall k :: i < k < |log| ==> !log[k].Marker?;
      assert log'[i].Dropped? && forall k :: i < k < |log'| ==> !log'[k].Marker?;
    }
    if Owing(log') && !e.Dropped? {
      var i :| 0 <= i < |log'| && log'[i].Dropped? && forall k :: i < k < |log'| ==> !log'[k].Marker?;
      assert !log'[|log|].Marker?;
      assert log[i].Dropped? && forall k :: i < k < |log| ==> log'[k] == log[k];
    }
    if Marked(log) && !(e.Kept? && Owing(log)) {
      forall i, j | 0 <= i < j < |log'| && log'[i].Dropped? && log'[j].Kept?
        ensures exists k :: i < k < j && log'[k].Marker?
      {
        if j < |log| {
          assert log[i].Dropped? && log[j].Kept?;
          var k :| i < k < j && log[k].Marker?;
          assert log'[k].Marker?;
        } else {
          assert log[i].Dropped?;
          var k :| i < k < |log| && log[k].Marker?;
          assert log'[k].Marker?;
        }
      }
    }
  }

  lemma DropKeepsFaith(q: Ring, texts: seq<string>, text: string)
    requires Faithful(q, texts) && text != "" && Appended(q, text).log == q.log + [Dropped(text)]
    ensures Faithful(Appended(q, text), texts + [text])
  {
    ExtendLog(q.log, Dropped(text), q.mark);
    ExtendOwing(q.log, Dropped(text));
  }

  lemma KeepKeepsFaith(q: Ring, texts: seq<string>, text: string)
    requires Faithful(q, texts) && text != "" && Appended(q, text).log == q.log + [Kept(text)]
    ensures Faithful(Appended(q, text), texts + [text])
  {
    ExtendLog(q.log, Kept(text), q.mark);
    ExtendOwing(q.log, Kept(text));
    assert q.delivered + (q.bytes + text) == q.delivered + q.bytes + text;
  }

  lemma AppendKeepsFaith(q: Ring, texts: seq<string>, text: string)
    requires Faithful(q, texts)
    ensures Faithful(Appended(q, text), texts + if text != "" then [text] else [])
  {
    if text == "" {
      assert texts + [] == texts;
    } else if q.lossPending || |text| > q.capacity - |q.bytes| {
      DropKeepsFaith(q, texts, text);
    } else {
      KeepKeepsFaith(q, texts, text);
    }
  }

  lemma AnnounceKeepsFaith(q: Ring, texts: seq<string>)
    requires Faithful(q, texts)
    ensures Faithful(Announced(q), texts)
  {
    ExtendLog(q.log, Marker, q.mark);
    ExtendOwing(q.log, Marker);
    assert q.delivered + (q.bytes + q.mark) == q.delivered + q.bytes + q.mark;
  }

  /** What the backend took is the front of the queue. */
  lemma HandedOver(q: Ring, accepted: nat, stream: string)
    requires q.delivered + q.bytes == stream && accepted <= |q.bytes|
    ensures q.delivered + q.bytes[..accepted] + q.bytes[accepted..] == stream
  {
    assert q.bytes == q.bytes[..accepted] + q.bytes[accepted..];
  }

  lemma DrainKeepsFaith(q: Ring, texts: seq<string>, connected: bool, accepted: nat)
    requires Faithful(q, texts)
    ensures Faithful(Drained(q, connected, accepted), texts)
  {
    AnnounceKeepsFaith(q, texts);
    var q1 := Announced(q);
    if connected && q1.bytes != "" && accepted <= Offered(q1) {
      HandedOver(q1, accepted, Stream(q1.log, q1.mark));
    }
  }

  /** For every capacity, every sequence of appended texts and every backend behaviour: delivered
      then queued bytes are the in-order stream of the kept records and markers, every non-empty
      text was kept or dropped whole, a marker follows every loss before anything else is kept,
      and the counters, that of input overflows included, are the true ones, capped. */
  lemma {:induction false} QueueRefinesStream(capacity: nat, mark: string, ops: seq<Op>)
    requires capacity >= 64 && |mark| == LOSS_LENGTH
    ensures var q := Run(Empty(capacity, mark), ops);
            Faithful(q, Texts(ops)) && q.rxOverflows == Cap32(Overflows(ops))
    decreases |ops|
  {
    if ops != [] {
      var (before, op) := (ops[..|ops| - 1], ops[|ops| - 1]);
      QueueRefinesStream(capacity, mark, before);
      var q := Run(Empty(capacity, mark), before);
      match op
      case Append(text) => AppendKeepsFaith(q, Texts(before), text);
      case Drain(connected, accepted) => DrainKeepsFaith(q, Texts(before), connected, accepted);
      case CountRxOverflow =>
    }
  }

  // ---- what must be kept -------------------------------------------------------------

  /** Bytes of the stream that the backend has not taken yet. */
  function Undelivered(q: Ring): int {
    |Stream(q.log, q.mark)| - |q.delivered|
  }

  /** In every reachable state: a record is dropped exactly when a marker is owed or it does not fit
      beside the undelivered bytes, and otherwise kept at the end of the stream. */
  lemma DropsOnlyWhenForced(capacity: nat, mark: string, ops: seq<Op>, text: string)
    requires capacity >= 64 && |mark| == LOSS_LENGTH && text != ""
    ensures var q := Run(Empty(capacity, mark), ops); var q' := Run(Empty(capacity, mark), ops + [Append(text)]);
            && q'.log == q.log + [if Owing(q.log) || Undelivered(q) + |text| > capacity then Dropped(text) else Kept(text)]
            && q'.delivered == q.delivered
  {
    QueueRefinesStream(capacity, mark, ops);
    assert (ops + [Append(text)])[..|ops|] == ops;
    var q := Run(Empty(capacity, mark), ops);
    assert |q.delivered + q.bytes| == |Stream(q.log, q.mark)|;
  }

  /** In every reachable state: a drain queues the marker exactly when one is owed and fits, and then
      delivers exactly the next bytes of the stream that a connected backend took, provided it took
      no more than offered. */
  lemma DrainsExactly(capacity: nat, mark: string, ops: seq<Op>, connected: bool, accepted: nat)
    requires capacity >= 64 && |mark| == LOSS_LENGTH
    ensures var q := Run(Empty(capacity, mark), ops); var q' := Run(Empty(capacity, mark), ops + [Drain(connected, accepted)]);
            && q'.log == q.log + (if Owing(q.log) && Undelivered(q) + LOSS_LENGTH <= capacity then [Marker] else [])
            && q.delivered <= q'.delivered <= Stream(q'.log, mark)
            && |q'.delivered| == |q.delivered| + if connected && accepted <= Offered(Announced(q)) then accepted else 0
  {
    QueueRefinesStream(capacity, mark, ops);
    QueueRefinesStream(capacity, mark, ops + [Drain(connected, accepted)]);
    assert (ops + [Drain(connected, accepted)])[..|ops|] == ops;
    var q := Run(Empty(capacity, mark), ops);
    assert |q.delivered + q.bytes| == |Stream(q.log, q.mark)|;
    assert q.log + [] == q.log;
    DrainedPrefix(q, connected, accepted);
  }

  lemma DrainedPrefix(q: Ring, connected: bool, accepted: nat)
    requires q.head < q.capacity
    ensures var q' := Drained(q, connected, accepted);
            && q.delivered <= q'.delivered <= q'.delivered + q'.bytes
            && |q'.delivered| == |q.delivered| + if connected && accepted <= Offered(Announced(q)) then accepted else 0
  {
  }

  /** Everything appended, in order. */
  function AllText(ops: seq<Op>): string {
    if ops == [] then ""
    else AllText(ops[..|ops| - 1]) + match ops[|ops| - 1] case Append(text) => text case _ => ""
  }

  /** The backend keeps up: what was appended and not yet delivered always fits. */
  ghost predicate KeepsUp(capacity: nat, mark: string, ops: seq<Op>)
    requires capacity > 0
    decreases |ops|
  {
    && (ops != [] ==> KeepsUp(capacity, mark, ops[..|ops| - 1]))
    && |AllText(ops)| <= |Run(Empty(capacity, mark), ops).delivered| + capacity
  }

  /** While the backend keeps up nothing is lost: delivered then queued bytes are plainly everything
      appended, no marker is queued or owed, and the loss counters stay zero. */
  lemma {:induction false} NothingIsLostInTime(capacity: nat, mark: string, ops: seq<Op>)
    requires capacity >= 64 && |mark| == LOSS_LENGTH && KeepsUp(capacity, mark, ops)
    ensures var q := Run(Empty(capacity, mark), ops);
            && q.delivered + q.bytes == AllText(ops)
            && (forall e :: e in q.log ==> e.Kept?) && !q.lossPending
            && q.droppedMessages == 0 && q.droppedBytes == 0
    decreases |ops|
  {
    if ops != [] {
      var (before, op) := (ops[..|ops| - 1], ops[|ops| - 1]);
      NothingIsLostInTime(capacity, mark, before);
      var q := Run(Empty(capacity, mark), before);
      match op
      case Append(text) => AppendInTime(q, text, AllText(before));
      case Drain(connected, accepted) =>
        QueueRefinesStream(capacity, mark, before);
        DrainInTime(q, connected, accepted);
      case CountRxOverflow =>
    }
  }

  lemma AppendInTime(q: Ring, text: string, all: string)
    requires q.delivered + q.bytes == all && !q.lossPending && |all + text| <= |q.delivered| + q.capacity
    requires forall e :: e in q.log ==> e.Kept?
    ensures var q' := Appended(q, text);
            && q'.delivered + q'.bytes == all + text && !q'.lossPending && (forall e :: e in q'.log ==> e.Kept?)
            && q'.droppedMessages == q.droppedMessages && q'.droppedBytes == q.droppedBytes
  {
    assert |all| == |q.delivered| + |q.bytes|;
    if text == "" {
      assert all + text == all;
    } else {
      assert q.delivered + (q.bytes + text) == all + text;
    }
  }

  lemma DrainInTime(q: Ring, connected: bool, accepted: nat)
    requires q.head < q.capacity && !q.lossPending
    ensures var q' := Drained(q, connected, accepted);
            && q'.delivered + q'.bytes == q.delivered + q.bytes && q'.log == q.log && !q'.lossPending
            && q'.droppedMessages == q.droppedMessages && q'.droppedBytes == q.droppedBytes
  {
    if connected && accepted <= Offered(q) {
      HandedOver(q, accepted, q.delivered + q.bytes);
    }
  }

  // ---- draining ----------------------------------------------------------------------

  /** Bytes still to hand over, a pending marker included. */
  function Backlog(q: Ring): nat {
    |q.bytes| + if q.lossPending then LOSS_LENGTH else 0
  }

  /** Each entry of `accepts` is what the backend takes of one offer: at least a byte whenever offered. */
  ghost predicate Progress(q: Ring, accepts: seq<nat>)
    requires q.head < q.capacity
    decreases |accepts|
  {
    accepts != [] ==>
      && (Announced(q).bytes != "" ==> 1 <= accepts[0] <= Offered(Announced(q)))
      && Progress(Drained(q, true, accepts[0]), accepts[1..])
  }

  function Drains(q: Ring, accepts: seq<nat>): Ring
    requires q.head < q.capacity
    decreases |accepts|
  {
    if accepts == [] then q else Drains(Drained(q, true, accepts[0]), accepts[1..])
  }

  lemma {:induction false} StaysDrained(q: Ring, accepts: seq<nat>)
    requires q.head < q.capacity && Backlog(q) == 0
    ensures Drains(q, accepts) == q
    decreases |accepts|
  {
    if accepts != [] { StaysDrained(q, accepts[1..]); }
  }

  /** With a backend that takes at least one byte per offer, no more drains than the backlog has
      bytes empty the queue and get a pending marker out, at any capacity the class allows. */
  lemma {:induction false} DrainsInBoundedCalls(q: Ring, accepts: seq<nat>)
    requires q.head < q.capacity && q.capacity >= 64 && |q.bytes| <= q.capacity && |q.mark| == LOSS_LENGTH
    requires Progress(q, accepts) && |accepts| >= Backlog(q)
    ensures Drains(q, accepts).bytes == "" && !Drains(q, accepts).lossPending
    decreases |accepts|
  {
    if Backlog(q) == 0 {
      StaysDrained(q, accepts);
    } else {
      var q1 := Drained(q, true, accepts[0]);
      assert Backlog(Announced(q)) == Backlog(q);
      assert Announced(q).bytes != "";
      assert Backlog(q1) < Backlog(q);
      DrainsInBoundedCalls(q1, accepts[1..]);
    }
  }

  // ---- evidence from two snapshots -------------------------------------------------------

  /** Entries added between two moments of one run. */
  lemma {:induction false} LogGrows(q: Ring, ops: seq<Op>)
    requires q.head < q.capacity
    ensures q.log <= Run(q, ops).log
    ensures Run(q, ops).rxOverflows >= q.rxOverflows && Run(q, ops).acceptedBytes >= q.acceptedBytes
    decreases |ops|
  {
    if ops != [] { LogGrows(q, ops[..|ops| - 1]); }
  }

  ghost predicate NoDrop(log: seq<Entry>) {
    forall e :: e in log ==> !e.Dropped?
  }

  lemma {:induction false} LossesAddUp(log: seq<Entry>, more: seq<Entry>)
    ensures LostMessages(log + more) == LostMessages(log) + LostMessages(more)
    ensures LostBytes(log + more) == LostBytes(log) + LostBytes(more)
    decreases |more|
  {
    if more == [] {
      assert log + more == log;
    } else {
      var (before, e) := (more[..|more| - 1], more[|more| - 1]);
      LossesAddUp(log, before);
      ExtendLog(log + before, e, "");
      assert log + more == log + before + [e];
    }
  }

  lemma {:induction false} NoDropMeansNoLoss(more: seq<Entry>)
    ensures LostMessages(more) == 0 <==> NoDrop(more)
    ensures NoDrop(more) ==> LostBytes(more) == 0
    decreases |more|
  {
    if more != [] {
      var (before, e) := (more[..|more| - 1], more[|more| - 1]);
      NoDropMeansNoLoss(before);
      assert more == before + [e];
      assert NoDrop(more) <==> NoDrop(before) && !e.Dropped?;
    }
  }

  lemma {:induction false} RunJoin(q: Ring, a: seq<Op>, b: seq<Op>)
    requires q.head < q.capacity
    ensures Run(q, a + b) == Run(Run(q, a), b)
    decreases |b|
  {
    if b == [] {
      assert a + b == a;
    } else {
      RunJoin(q, a, b[..|b| - 1]);
      assert (a + b)[..|a + b| - 1] == a + b[..|b| - 1];
    }
  }

  ghost predicate NoOverflow(ops: seq<Op>) {
    forall op :: op in ops ==> !op.CountRxOverflow?
  }

  lemma {:induction false} OverflowsAddUp(ops: seq<Op>, more: seq<Op>)
    ensures Overflows(ops + more) == Overflows(ops) + Overflows(more)
    ensures Overflows(more) == 0 <==> NoOverflow(more)
    decreases |more|
  {
    if more == [] {
      assert ops + more == ops;
    } else {
      var (before, op) := (more[..|more| - 1], more[|more| - 1]);
      OverflowsAddUp(ops, before);
      assert (ops + more)[..|ops + more| - 1] == ops + before;
      assert more == before + [op];
      assert NoOverflow(more) <==> NoOverflow(before) && !op.CountRxOverflow?;
    }
  }

  /** While unsaturated, the overflow counter reads the same at two moments of one run exactly when
      no input overflowed in between. */
  lemma EqualOverflowsMeanNone(capacity: nat, mark: string, ops: seq<Op>, more: seq<Op>)
    requires capacity >= 64 && |mark| == LOSS_LENGTH
    requires Run(Empty(capacity, mark), ops + more).rxOverflows < U32_MAX
    ensures var (q, q') := (Run(Empty(capacity, mark), ops), Run(Empty(capacity, mark), ops + more));
            q.rxOverflows == q'.rxOverflows <==> NoOverflow(more)
  {
    QueueRefinesStream(capacity, mark, ops);
    QueueRefinesStream(capacity, mark, ops + more);
    OverflowsAddUp(ops, more);
  }

  lemma SameCountSameLosses(log: seq<Entry>, log': seq<Entry>)
    requires log <= log' && Cap32(LostMessages(log')) < U32_MAX
    ensures Cap32(LostMessages(log)) == Cap32(LostMessages(log')) <==> NoDrop(log'[|log|..])
    ensures NoDrop(log'[|log|..]) ==> LostBytes(log) == LostBytes(log')
  {
    LossesAddUp(log, log'[|log|..]);
    NoDropMeansNoLoss(log'[|log|..]);
    assert log' == log + log'[|log|..];
  }

  /** While the dropped-message counter is unsaturated, it reads the same at two moments of one run
      exactly when no record at all was dropped in between, and then so does the byte counter. */
  lemma EqualCountersMeanNoLoss(capacity: nat, mark: string, ops: seq<Op>, more: seq<Op>)
    requires capacity >= 64 && |mark| == LOSS_LENGTH
    requires Run(Empty(capacity, mark), ops + more).droppedMessages < U32_MAX
    ensures var (q, q') := (Run(Empty(capacity, mark), ops), Run(Empty(capacity, mark), ops + more));
            && q.log <= q'.log && q.acceptedBytes <= q'.acceptedBytes
            && (q.droppedMessages == q'.droppedMessages <==> NoDrop(q'.log[|q.log|..]))
            && (NoDrop(q'.log[|q.log|..]) ==> q.droppedBytes == q'.droppedBytes)
  {
    QueueRefinesStream(capacity, mark, ops);
    QueueRefinesStream(capacity, mark, ops + more);
    RunJoin(Empty(capacity, mark), ops, more);
    var (q, q') := (Run(Empty(capacity, mark), ops), Run(Empty(capacity, mark), ops + more));
    LogGrows(q, more);
    SameCountSameLosses(q.log, q'.log);
  }
}
