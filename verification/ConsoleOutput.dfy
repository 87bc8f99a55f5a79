/** The console queue object on its fixed array. */
module ConsoleOutput {
  import opened Base
  import opened ConsoleRing

  const LOSS: string := "\n[E] CONSOLE_OUTPUT_LOST; inspect console counters\n"

  /** `head + i` modulo the capacity, for an index inside the queue. */
  function Wrap(x: nat, capacity: nat): nat
    requires x < 2 * capacity
  {
    if x < capacity then x else x - capacity
  }

  lemma WrapIsModulo(x: nat, capacity: nat)
    requires x < 2 * capacity
    ensures Wrap(x, capacity) == x % capacity
  {
    if x >= capacity {
      var d := x / capacity;
      assert d >= 1 && d < 2;
    }
  }

  /** The `used` queued bytes, oldest first. */
  ghost function Content(data: seq<char>, head: nat, used: nat): (s: string)
    requires head < |data| && used <= |data|
    ensures |s| == used
    ensures forall i :: 0 <= i < used ==> s[i] == data[Wrap(head + i, |data|)]
  {
    seq(used, i requires 0 <= i < used => data[Wrap(head + i, |data|)])
  }

  class Queue {
    const capacity: nat
    const mark: string
    const data: array<char>
    var head: nat
    var used: nat
    var lossPending: bool
    var acceptedBytes: u32
    var droppedBytes: u32
    var droppedMessages: u32
    var rxOverflows: u32
    ghost var delivered: string
    ghost var log: seq<Entry>

    ghost predicate Valid()
      reads this
    {
      64 <= capacity <= U32_MAX && data.Length == capacity && |mark| == LOSS_LENGTH && head < capacity && used <= capacity
    }

    ghost function View(): Ring
      requires Valid()
      reads this, data
    {
      Ring(capacity, mark, head, Content(data[..], head, used), lossPending,
           acceptedBytes, droppedBytes, droppedMessages, rxOverflows, delivered, log)
    }

    constructor (capacity: nat)
      requires 64 <= capacity <= U32_MAX
      ensures Valid() && fresh(data) && mark == LOSS && View() == Empty(capacity, LOSS)
    {
      this.capacity, mark := capacity, LOSS;
      data := new char[capacity];
      head, used, lossPending := 0, 0, false;
      acceptedBytes, droppedBytes, droppedMessages, rxOverflows := 0, 0, 0, 0;
      delivered, log := "", [];
      new;
      assert Content(data[..], 0, 0) == "";
    }

    /** memcpy: `text[from..from + n]` into the array at `at`. */
    method Copy(at: nat, text: string, from: nat, n: nat)
      requires Valid() && at + n <= capacity && from + n <= |text|
      modifies data
      ensures forall j :: 0 <= j < capacity ==>
        data[j] == if at <= j < at + n then text[from + j - at] else old(data[j])
    {
      for i := 0 to n
        invariant forall j :: 0 <= j < capacity ==>
          data[j] == if at <= j < at + i then text[from + j - at] else old(data[j])
      {
        data[at + i] := text[from + i];
      }
    }

    method Enqueue(text: string)
      requires Valid() && |text| <= capacity - used
      modifies this`used, data
      ensures Valid() && used == old(used) + |text|
      ensures Content(data[..], head, used) == old(Content(data[..], head, used)) + text
    {
      var length := |text|;
      WrapIsModulo(head + used, capacity);
      var tail := (head + used) % capacity;
      var first := if length < capacity - tail then length else capacity - tail;
      ghost var before := Content(data[..], head, used);
      ghost var was := data[..];
      Copy(tail, text, 0, first);
      Copy(0, text, first, length - first);
      used := used + length;
      ghost var after := Content(data[..], head, used);
      forall i | 0 <= i < used
        ensures after[i] == (before + text)[i]
      {
        assert data[..][Wrap(head + i, capacity)] ==
          if i < |before| then was[Wrap(head + i, capacity)] else text[i - |before|];
      }
    }

    method Append(text: string)
      requires Valid()
      modifies this, data
      ensures Valid() && View() == Appended(old(View()), text)
      ensures old(!lossPending && |text| <= capacity - used) ==>
        View().bytes == old(View().bytes) + text && !lossPending && droppedMessages == old(droppedMessages)
    {
      var length := |text|;
      if length == 0 {
        return;
      }
      if lossPending || length > capacity - used {
        droppedBytes := SaturatingAdd(droppedBytes, length);
        droppedMessages := SaturatingAdd(droppedMessages, 1);
        lossPending := true;
        log := log + [Dropped(text)];
        return;
      }
      Enqueue(text);
      log := log + [Kept(text)];
    }

    /** The pending loss marker, as soon as it fits. */
    method Announce()
      requires Valid()
      modifies this, data
      ensures Valid() && View() == Announced(old(View()))
    {
      if lossPending && capacity - used >= |mark| {
        Enqueue(mark);
        lossPending := false;
        log := log + [Marker];
      }
    }

    /** The contiguous bytes the backend is offered. */
    method Offer() returns (offer: string)
      requires Valid()
      ensures offer == View().bytes[..Offered(View())]
      ensures |offer| <= 64 && (|offer| == 64 || |offer| == used || head + |offer| == capacity)
    {
      var amount := if used < capacity - head then used else capacity - head;
      if amount > 64 {
        amount := 64;
      }
      offer := data[head..head + amount];
      assert offer == Content(data[..], head, used)[..amount];
    }

    /** One offer to the backend. `connected` says whether there is one; `accepted` is its answer. */
    method Drain(connected: bool, accepted: nat) returns (offer: string)
      requires Valid()
      modifies this, data
      ensures Valid() && View() == Drained(old(View()), connected, accepted)
      ensures var q := Announced(old(View())); connected ==> offer == q.bytes[..Offered(q)]
    {
      offer := "";
      Announce();
      if !connected || used == 0 {
        return;
      }
      offer := Offer();
      if accepted > |offer| {
        return;
      }
      Consume(accepted);
    }

    method Consume(accepted: nat)
      requires Valid() && accepted <= used && head + accepted <= capacity
      modifies this
      ensures Valid()
      ensures var q := old(View());
              View() == q.(head := (q.head + accepted) % q.capacity, bytes := q.bytes[accepted..],
                           acceptedBytes := SaturatingAdd(q.acceptedBytes, accepted),
                           delivered := q.delivered + q.bytes[..accepted])
    {
      ghost var bytes := Content(data[..], head, used);
      delivered := delivered + bytes[..accepted];
      WrapIsModulo(head + accepted, capacity);
      head := (head + accepted) % capacity;
      used := used - accepted;
      acceptedBytes := SaturatingAdd(acceptedBytes, accepted);
      assert Content(data[..], head, used) == bytes[accepted..];
    }

    method CountRxOverflow()
      requires Valid()
      modifies this`rxOverflows
      ensures Valid() && View() == Apply(old(View()), ConsoleRing.CountRxOverflow)
    {
      rxOverflows := SaturatingAdd(rxOverflows, 1);
    }
  }
}
