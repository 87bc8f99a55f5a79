/** The runner's serial session against a firmware that answers its lines in order, behind a link
    that delivers bytes in arbitrary chunks. */
module SerialLink {
  import opened Base
  import opened Framing
  import opened Whitespace

  const MAX_RESPONSE_BYTES := 65536

  const CANCEL_LINE: string := [21 as char]

  const DISCARDED_INVALID := "[E] Command discarded: invalid input\n>"
  const DISCARDED_LONG := "[E] Command discarded: line too long\n>"

  function WithoutCr(s: string): string {
    if s == "" then ""
    else
      var c := s[|s| - 1];
      WithoutCr(s[..|s| - 1]) + if c == '\r' then "" else [c]
  }

  /** The answer to the first line of a session is one of the two discard messages and a prompt. */
  predicate Acknowledges(text: string) {
    var t := Strip(WithoutCr(text));
    t == DISCARDED_INVALID || t == DISCARDED_LONG
  }

  lemma {:induction false} NoCr(s: string)
    requires '\r' !in s
    ensures WithoutCr(s) == s
    decreases |s|
  {
    if s != "" { NoCr(s[..|s| - 1]); }
  }

  lemma {:induction false} CrJoin(a: string, b: string)
    ensures WithoutCr(a + b) == WithoutCr(a) + WithoutCr(b)
    decreases |b|
  {
    if b == "" {
      assert a + b == a;
    } else {
      CrJoin(a, b[..|b| - 1]);
      assert (a + b)[..|a + b| - 1] == a + b[..|b| - 1];
    }
  }

  /** Any answer that is, but for CRs, a discard message and the prompt's blank is acknowledged. */
  lemma DiscardAcknowledged(text: string, message: string)
    requires message == DISCARDED_INVALID || message == DISCARDED_LONG
    requires WithoutCr(text) == message + " "
    ensures Acknowledges(text)
  {
    var t := message + " ";
    assert Solid(message) by {
      assert message[0] == '[' && message[|message| - 1] == '>';
    }
    assert StripLeft(t) == t;
    assert t[..|t| - 1] == message && StripRight(message) == message;
  }

  lemma CrDropped(body: string, ending: string)
    requires '\r' !in body && '\r' !in ending
    ensures WithoutCr(body + ending) == body + ending && WithoutCr(body + "\r" + ending) == body + ending
  {
    NoCr(body);
    NoCr(ending);
    CrJoin(body, ending);
    assert WithoutCr("\r") == "" by { assert "\r"[..0] == ""; }
    CrJoin(body, "\r");
    CrJoin(body + "\r", ending);
    assert body + "" == body;
  }

  lemma DiscardBodies()
    ensures "[E] Command discarded: invalid input" + "\n> " == DISCARDED_INVALID + " "
    ensures "[E] Command discarded: line too long" + "\n> " == DISCARDED_LONG + " "
    ensures '\r' !in "[E] Command discarded: invalid input" && '\r' !in "[E] Command discarded: line too long"
  {
  }

  lemma BodyAcknowledged(body: string, message: string)
    requires message == DISCARDED_INVALID || message == DISCARDED_LONG
    requires body + "\n> " == message + " " && '\r' !in body
    ensures Acknowledges(body + "\n> ") && Acknowledges(body + "\r" + "\n> ")
  {
    CrDropped(body, "\n> ");
    DiscardAcknowledged(body + "\n> ", message);
    DiscardAcknowledged(body + "\r" + "\n> ", message);
  }

  /** What the firmware prints for a discarded line is acknowledged, with LF and with CR LF. */
  lemma PrintedDiscardAcknowledged(body: string)
    requires body == "[E] Command discarded: invalid input" || body == "[E] Command discarded: line too long"
    ensures Acknowledges(body + "\n> ") && Acknowledges(body + "\r" + "\n> ")
  {
    DiscardBodies();
    if body == "[E] Command discarded: invalid input" {
      BodyAcknowledged(body, DISCARDED_INVALID);
    } else {
      BodyAcknowledged(body, DISCARDED_LONG);
    }
  }

  /** Answers by line number and line. */
  type Firmware = (nat, string) -> string

  /** Every answer ends with the prompt, and `hilmark` answers with its token alone. */
  ghost predicate Disciplined(f: Firmware) {
    && (forall n: nat, line :: |f(n, line)| >= 2 && f(n, line)[|f(n, line)| - 2..] == "> ")
    && (forall n: nat, token :: IsToken(token) ==> f(n, "hilmark " + token) == MarkerAnswer(token))
  }

  /** The marker of `token` stands in no answer to `command`. */
  ghost predicate Fresh(f: Firmware, command: string, token: string) {
    forall n: nat :: !Occurs(f(n, command), MarkerText(token))
  }

  /** The answers to `lines`, the first of which is line number `n`. */
  function Answers(f: Firmware, n: nat, lines: seq<string>): string
    decreases |lines|
  {
    if lines == [] then "" else f(n, lines[0]) + Answers(f, n + 1, lines[1..])
  }

  lemma {:induction false} AnswersAppend(f: Firmware, n: nat, lines: seq<string>, line: string)
    ensures Answers(f, n, lines + [line]) == Answers(f, n, lines) + f(n + |lines|, line)
    decreases |lines|
  {
    if lines == [] {
      assert Answers(f, n, [line]) == f(n, line) + Answers(f, n + 1, [line][1..]);
    } else {
      AnswersAppend(f, n + 1, lines[1..], line);
      assert (lines + [line])[1..] == lines[1..] + [line];
    }
  }

  lemma {:induction false} AnswersSplit(f: Firmware, n: nat, lines: seq<string>, m: nat)
    requires m <= |lines|
    ensures Answers(f, n, lines) == Answers(f, n, lines[..m]) + Answers(f, n + m, lines[m..])
    decreases m
  {
    if m > 0 {
      AnswersSplit(f, n + 1, lines[1..], m - 1);
      assert lines[..m][1..] == lines[1..][..m - 1] && lines[1..][m - 1..] == lines[m..];
    } else {
      assert lines[..0] == [] && lines[0..] == lines;
    }
  }

  class Link {
    const firmware: Firmware
    var handled: nat
    var inbox: seq<string>
    var outbox: string

    /** Everything that will still arrive if nothing more is sent. */
    ghost function InFlight(): string
      reads this
    {
      outbox + Answers(firmware, handled, inbox)
    }

    function LinesSent(): nat
      reads this
    {
      handled + |inbox|
    }

    constructor (firmware: Firmware, leftover: string)
      ensures this.firmware == firmware && InFlight() == leftover && LinesSent() == 0
    {
      this.firmware := firmware;
      handled, inbox, outbox := 0, [], leftover;
    }

    method Send(line: string)
      modifies this
      ensures InFlight() == old(InFlight()) + firmware(old(LinesSent()), line)
      ensures LinesSent() == old(LinesSent()) + 1
    {
      AnswersAppend(firmware, handled, inbox, line);
      inbox := inbox + [line];
    }

    /** The firmware handles any number of waiting lines; then any prefix of its output arrives. A
        read that `delivers` brings at least one byte if any is in flight. */
    method Receive(limit: nat, delivers: bool) returns (data: string)
      modifies this
      ensures data + InFlight() == old(InFlight()) && |data| <= limit
      ensures LinesSent() == old(LinesSent())
      ensures delivers && limit > 0 && old(InFlight()) != "" ==> data != ""
    {
      var m: nat :| m <= |inbox| && (delivers ==> m == |inbox|);
      AnswersSplit(firmware, handled, inbox, m);
      outbox := outbox + Answers(firmware, handled, inbox[..m]);
      handled, inbox := handled + m, inbox[m..];
      assert InFlight() == old(InFlight());
      if delivers {
        assert inbox == [] && outbox + "" == outbox;
        assert outbox == old(InFlight());
      }
      var n: nat :| n <= |outbox| && n <= limit && (delivers && limit > 0 && outbox != "" ==> n > 0);
      data := outbox[..n];
      assert outbox == outbox[..n] + outbox[n..];
      outbox := outbox[n..];
    }
  }

  lemma Rejoin(first: string, rest: string, before: string, more: string)
    requires first + rest == "" + before
    ensures first + (rest + more) == before + more && first <= before
  {
    assert "" + before == before;
  }

  lemma Regroup(received: string, data: string, left: string, waiting: string)
    requires data + left == waiting
    ensures received + data + left == received + waiting
  {
  }

  datatype Completion =
    | Prompt
    | Timeout
    | MarkerTimeout
    | Overflow
    | Late
    | Restarted
    | MultipleResponses
    | UnsolicitedMarker
    | BadMarker
    | Lost

  datatype Response = Response(text: string, completion: Completion)

  /** How many of the turns `from..to` are sure ones. */
  function Sure(sure: nat -> bool, from: nat, to: nat): nat
    decreases to - from
  {
    if from >= to then 0 else (if sure(from) then 1 else 0) + Sure(sure, from + 1, to)
  }

  /** The circumstances of one exchange: how many reads drain what is pending and how many fit before
      the deadline after that, which of them are sure to deliver, which end past the deadline, and
      whether the two writes succeed in time. */
  datatype Circumstances = Circumstances(
    drains: nat, fetches: nat -> bool, turns: nat, late: nat -> bool, delivers: nat -> bool, writeOk: bool, markOk: bool)
  {
    /** How many of the reads from turn `from` on are sure to deliver. */
    function Deliveries(from: nat): nat {
      Sure(delivers, from, turns)
    }
  }

  type Search = string -> bool

  /** Reading on from `lo`, the whole text is there in time: no read is late, no restart shows, it
      fits, its only prompt is its end, and there is a delivery for every byte. */
  ghost predicate Arrives(whole: string, lo: nat, restarted: Search, c: Circumstances, from: nat) {
    && lo < |whole| < MAX_RESPONSE_BYTES
    && (forall i: nat :: from <= i < c.turns ==> !c.late(i))
    && (forall m: nat :: lo < m <= |whole| ==> !restarted(whole[..m]))
    && EndsWithPrompt(whole) && (forall m: nat :: lo < m < |whole| ==> !EndsWithPrompt(whole[..m]))
    && c.Deliveries(from) >= |whole| - lo
  }

  /** Nothing goes wrong around `answer` and the marker's answer behind it. */
  ghost predicate Smooth(answer: string, token: string, restarted: Search, c: Circumstances) {
    var whole := answer + MarkerAnswer(token);
    && c.markOk && |whole| < MAX_RESPONSE_BYTES && c.Deliveries(0) >= |whole|
    && (forall i: nat :: i < c.turns ==> !c.late(i))
    && (forall m: nat :: 0 < m <= |whole| ==> !restarted(whole[..m]))
  }

  /** What is in flight fits and there is a sure read for each of its bytes. */
  predicate Drainable(pending: string, c: Circumstances) {
    |pending| < MAX_RESPONSE_BYTES && |pending| <= Sure(c.fetches, 0, c.drains)
  }

  /** Command line `n` meets no trouble and is answered by one proper response. */
  ghost predicate Completes(f: Firmware, n: nat, command: string, token: string, restarted: Search, c: Circumstances) {
    c.writeOk && Proper(f(n, command)) && Smooth(f(n, command), token, restarted, c)
  }

  lemma AnswerArrives(answer: string, token: string, restarted: Search, c: Circumstances)
    requires Proper(answer) && IsToken(token) && Smooth(answer, token, restarted, c)
    ensures Arrives(answer, 0, restarted, c, 0)
  {
    var whole := answer + MarkerAnswer(token);
    forall m: nat | m <= |answer|
      ensures answer[..m] == whole[..m]
    {
    }
    forall m: nat | m < |answer|
      ensures !EndsWithPrompt(answer[..m])
    {
      NoEarlyPrompt(answer, token, m);
    }
    assert answer[..|answer|] == answer;
    ProperEnd(answer);
  }

  lemma MarkerArrives(answer: string, token: string, restarted: Search, c: Circumstances, from: nat)
    requires Proper(answer) && IsToken(token) && Smooth(answer, token, restarted, c)
    requires c.Deliveries(from) >= |MarkerAnswer(token)|
    ensures Arrives(answer + MarkerAnswer(token), |answer|, restarted, c, from)
  {
    var whole := answer + MarkerAnswer(token);
    forall m: nat | |answer| < m < |whole|
      ensures !EndsWithPrompt(whole[..m])
    {
      NoEarlyPrompt(answer, token, m);
    }
    MarkerPrompt(answer, token);
  }

  predicate Chatter(c: char) {
    c == '>' || c == ' ' || c == '\r' || c == '\n' || c == '\t'
  }

  predicate OnlyChatter(s: string) {
    forall i :: 0 <= i < |s| ==> Chatter(s[i])
  }

  /** Each text is the answer to its own command, the first of which was line `base` and every later
      one two lines on. */
  ghost predicate OwnAnswers(f: Firmware, base: nat, commands: seq<string>, texts: seq<string>) {
    |texts| <= |commands| && forall i: nat :: i < |texts| ==> texts[i] == f(base + 2 * i, commands[i])
  }

  lemma OneMoreAnswer(f: Firmware, base: nat, commands: seq<string>, texts: seq<string>, text: string)
    requires OwnAnswers(f, base, commands, texts) && |texts| < |commands|
    requires text == f(base + 2 * |texts|, commands[|texts|])
    ensures OwnAnswers(f, base, commands, texts + [text])
  {
  }

  /** A session as it is asked for: every token is one, and fresh for its command. */
  ghost predicate Asked(f: Firmware, commands: seq<string>, tokens: seq<string>) {
    && Disciplined(f) && |tokens| == |commands|
    && (forall i :: 0 <= i < |tokens| ==> IsToken(tokens[i]) && Fresh(f, commands[i], tokens[i]))
  }

  lemma AskedAt(f: Firmware, commands: seq<string>, tokens: seq<string>, i: nat)
    requires Asked(f, commands, tokens) && i < |commands|
    ensures IsToken(tokens[i]) && Fresh(f, commands[i], tokens[i])
  {
  }

  /** Command `i` of the session met trouble or was not answered properly. */
  ghost predicate Stuck(f: Firmware, base: nat, commands: seq<string>, tokens: seq<string>, restarted: Search,
                        c: seq<Circumstances>, i: nat)
  {
    i < |commands| && i < |tokens| && i < |c|
    && !Completes(f, base + 2 * i, commands[i], tokens[i], restarted, c[i])
  }

  /** Each completion names what the response shows. */
  predicate Justified(r: Response, token: string, restarted: Search) {
    match r.completion
    case Overflow => |r.text| >= MAX_RESPONSE_BYTES
    case Restarted => restarted(r.text)
    case MultipleResponses => EndsWithPrompt(r.text) && |Prompts(r.text)| != 1
    case UnsolicitedMarker => EndsWithPrompt(r.text) && |Prompts(r.text)| == 1 && HasHead(r.text)
    case BadMarker => EndsWithPrompt(r.text) && !Accepts(r.text, token)
    case _ => true
  }

  /** The verdict on a response that ends with a prompt after the marker was sent. */
  function Judged(received: string, token: string): (r: Response)
    ensures EndsWithPrompt(received) ==> forall restarted: Search :: Justified(r, token, restarted)
  {
    if Accepts(received, token) then Response(Original(received), Prompt) else Response(received, BadMarker)
  }

  lemma JudgedWhole(before: string, first: string, received: string, token: string)
    requires IsToken(token) && |before| >= 2 && before[|before| - 2..] == "> "
    requires first <= before && EndsWithPrompt(first) && !HasHead(first)
    requires received <= before + MarkerAnswer(token)
    ensures Judged(received, token).completion.Prompt? && !Occurs(before, MarkerText(token)) ==>
      Judged(received, token).text == before && received == before + MarkerAnswer(token)
  {
    if Accepts(received, token) && !Occurs(before, MarkerText(token)) {
      AcceptedExchangeIsWhole(before, first, received, token);
    }
  }

  class SerialRunner {
    const link: Link
    var synchronized: bool
    var synchronizationAttempted: bool

    constructor (link: Link)
      ensures this.link == link && !synchronized && !synchronizationAttempted
    {
      this.link := link;
      synchronized, synchronizationAttempted := false, false;
    }

    /** Read what is already waiting; anything but prompts and blanks loses the session. With as many
        sure reads as bytes, nothing that was in flight stays there. */
    method DrainPending(c: Circumstances) returns (ok: bool, ghost drained: string)
      modifies link
      ensures drained + link.InFlight() == old(link.InFlight())
      ensures link.LinesSent() == old(link.LinesSent())
      ensures ok <==> |drained| < MAX_RESPONSE_BYTES && OnlyChatter(drained)
      ensures |old(link.InFlight())| <= Sure(c.fetches, 0, c.drains) ==>
        |drained| >= MAX_RESPONSE_BYTES || drained == old(link.InFlight())
    {
      var received := "";
      ok := true;
      for i := 0 to c.drains
        invariant received + link.InFlight() == old(link.InFlight()) && |received| < MAX_RESPONSE_BYTES
        invariant link.LinesSent() == old(link.LinesSent())
        invariant |old(link.InFlight())| <= Sure(c.fetches, 0, c.drains) ==>
          |link.InFlight()| <= Sure(c.fetches, i, c.drains)
      {
        ghost var waiting := link.InFlight();
        var data := link.Receive(MAX_RESPONSE_BYTES - |received|, c.fetches(i));
        Regroup(received, data, link.InFlight(), waiting);
        received := received + data;
        if |received| >= MAX_RESPONSE_BYTES {
          return false, received;
        }
      }
      ok := OnlyChatter(received);
      drained := received;
    }

    /** One read: what has arrived by now, why reading must stop if it must, and whether a prompt
        stands at the end. */
    method Poll(received: string, turn: nat, restarted: Search, waiting: Completion, c: Circumstances)
      returns (all: string, stop: Option<Completion>, ready: bool)
      requires |received| < MAX_RESPONSE_BYTES
      modifies link
      ensures received <= all && all + link.InFlight() == received + old(link.InFlight())
      ensures link.LinesSent() == old(link.LinesSent())
      ensures c.delivers(turn) && old(link.InFlight()) != "" ==> |received| < |all|
      ensures stop.None? <==>
        |all| < MAX_RESPONSE_BYTES && !c.late(turn) && (|received| < |all| ==> !restarted(all))
      ensures stop == Some(Overflow) <== |all| >= MAX_RESPONSE_BYTES
      ensures |all| < MAX_RESPONSE_BYTES && c.late(turn) ==> stop == Some(if |received| < |all| then Late else waiting)
      ensures |all| < MAX_RESPONSE_BYTES && !c.late(turn) && stop.Some? ==> stop == Some(Restarted)
      ensures ready <==> stop.None? && |received| < |all| && EndsWithPrompt(all)
    {
      var data := link.Receive(Min(4096, MAX_RESPONSE_BYTES - |received|), c.delivers(turn));
      all, stop, ready := received + data, None, false;
      if |all| >= MAX_RESPONSE_BYTES {
        stop := Some(Overflow);
      } else if c.late(turn) {
        stop := Some(if data != "" then Late else waiting);
      } else if data != "" {
        if restarted(all) {
          stop := Some(Restarted);
        } else {
          ready := EndsWithPrompt(all);
        }
      }
    }

    /** Read on, from turn `from`, until a prompt stands at the end or reading must stop. */
    method AwaitPrompt(start: string, from: nat, waiting: Completion, restarted: Search, token: string, c: Circumstances)
      returns (received: string, next: nat, stop: Option<Completion>)
      requires |start| < MAX_RESPONSE_BYTES && (waiting.Timeout? || waiting.MarkerTimeout?)
      modifies link
      ensures received + link.InFlight() == start + old(link.InFlight())
      ensures link.LinesSent() == old(link.LinesSent())
      ensures stop.None? ==> |received| < MAX_RESPONSE_BYTES && EndsWithPrompt(received)
      ensures stop.Some? ==> stop.value == waiting || stop.value.Late? || stop.value.Overflow? || stop.value.Restarted?
      ensures stop.Some? ==> Justified(Response(received, stop.value), token, restarted)
      ensures var whole := start + old(link.InFlight());
              Arrives(whole, |start|, restarted, c, from) ==>
                && stop.None? && received == whole && link.InFlight() == ""
                && c.Deliveries(next) + |whole| >= c.Deliveries(from) + |start|
    {
      received, next := start, from;
      ghost var whole := start + link.InFlight();
      while next < c.turns
        invariant |received| < MAX_RESPONSE_BYTES && start <= received && from <= next
        invariant received + link.InFlight() == whole
        invariant link.LinesSent() == old(link.LinesSent())
        invariant Arrives(whole, |start|, restarted, c, from) ==>
          |received| < |whole| && c.Deliveries(next) + |received| >= c.Deliveries(from) + |start|
      {
        var ready;
        ghost var seen := received;
        received, stop, ready := Poll(received, next, restarted, waiting, c);
        assert whole[..|received|] == received;
        next := next + 1;
        if stop.Some? || ready {
          return;
        }
      }
      stop := Some(waiting);
    }

    /** Read on for the marker's own prompt and judge the whole. `first` is what had arrived when the
        marker was sent. */
    method AwaitMarker(ghost before: string, first: string, from: nat, token: string, restarted: Search, c: Circumstances)
      returns (r: Response)
      requires IsToken(token) && !synchronized && |first| < MAX_RESPONSE_BYTES
      requires |before| >= 2 && before[|before| - 2..] == "> "
      requires first <= before && EndsWithPrompt(first) && !HasHead(first)
      requires first + link.InFlight() == before + MarkerAnswer(token)
      modifies this`synchronized, link
      ensures synchronized <==> r.completion.Prompt?
      ensures link.LinesSent() == old(link.LinesSent())
      ensures r.completion.Prompt? && !Occurs(before, MarkerText(token)) ==> r.text == before && link.InFlight() == ""
      ensures Justified(r, token, restarted)
      ensures Proper(before) && first == before && Arrives(before + MarkerAnswer(token), |before|, restarted, c, from) ==>
        r.completion.Prompt?
    {
      var received, next, stop := AwaitPrompt(first, from, MarkerTimeout, restarted, token, c);
      if stop.Some? {
        return Response(received, stop.value);
      }
      ghost var whole := before + MarkerAnswer(token);
      assert received <= whole;
      JudgedWhole(before, first, received, token);
      if Proper(before) && received == whole {
        CleanExchangeIsAccepted(before, token);
      }
      r := Judged(received, token);
      synchronized := r.completion.Prompt?;
    }

    /** Read until a prompt, send the marker, and read until both are framed. `before` is what is in
        flight at the start. */
    method ReadFramed(ghost before: string, token: string, restarted: Search, c: Circumstances) returns (r: Response)
      requires Disciplined(link.firmware) && IsToken(token) && !synchronized
      requires link.InFlight() == before && |before| >= 2 && before[|before| - 2..] == "> "
      modifies this`synchronized, link
      ensures synchronized <==> r.completion.Prompt?
      ensures synchronized ==> link.LinesSent() == old(link.LinesSent()) + 1
      ensures r.completion.Prompt? && !Occurs(before, MarkerText(token)) ==> r.text == before && link.InFlight() == ""
      ensures Justified(r, token, restarted)
      ensures Proper(before) && Smooth(before, token, restarted, c) ==>
        r.completion.Prompt? && r.text == before && link.InFlight() == ""
    {
      ghost var smooth := Proper(before) && Smooth(before, token, restarted, c);
      assert "" + before == before;
      if smooth {
        AnswerArrives(before, token, restarted, c);
        NoHeadNoMarker(before, token);
      }
      var first, next, stop := AwaitPrompt("", 0, Timeout, restarted, token, c);
      if stop.Some? {
        return Response(first, stop.value);
      }
      var refusal := FirstRefusal(first);
      if refusal.Some? {
        return Response(first, refusal.value);
      }
      if !c.markOk {
        return Response(first, Lost);
      }
      SendMarker(before, first, token);
      if smooth {
        MarkerArrives(before, token, restarted, c, next);
      }
      r := AwaitMarker(before, first, next, token, restarted, c);
    }

    method SendMarker(ghost before: string, first: string, token: string)
      requires Disciplined(link.firmware) && IsToken(token) && first + link.InFlight() == "" + before
      modifies link
      ensures first + link.InFlight() == before + MarkerAnswer(token) && first <= before
      ensures link.LinesSent() == old(link.LinesSent()) + 1
    {
      ghost var rest := link.InFlight();
      link.Send("hilmark " + token);
      Rejoin(first, rest, before, MarkerAnswer(token));
    }

    /** Why the first prompt cannot be the end of a single clean response, if it cannot. */
    function FirstRefusal(received: string): (c: Option<Completion>)
      ensures c.None? <==> |Prompts(received)| == 1 && !HasHead(received)
      ensures c == Some(MultipleResponses) <==> |Prompts(received)| != 1
      ensures c.Some? ==> c.value.MultipleResponses? || c.value.UnsolicitedMarker?
    {
      if |Prompts(received)| != 1 then Some(MultipleResponses)
      else if HasHead(received) then Some(UnsolicitedMarker)
      else None
    }

    /** Send one command, then a marker with a fresh token once a prompt shows, and accept only a
        response framed by both. If it completes, the text is exactly the stale output still in
        flight when the command was sent followed by the command's own answer, and nothing is left
        in flight. If that text is one proper response and nothing goes wrong, it does complete. */
    method Exchange(command: string, token: string, restarted: Search, c: Circumstances)
      returns (r: Response, ghost drained: string, ghost stale: string)
      requires Disciplined(link.firmware) && IsToken(token)
      modifies this`synchronized, link
      ensures synchronized <==> r.completion.Prompt?
      ensures synchronized ==> link.LinesSent() == old(link.LinesSent()) + 2
      ensures drained + stale == old(link.InFlight())
      ensures |old(link.InFlight())| <= Sure(c.fetches, 0, c.drains) ==> |drained| >= MAX_RESPONSE_BYTES || stale == ""
      ensures var before := stale + link.firmware(old(link.LinesSent()), command);
              r.completion.Prompt? && !Occurs(before, MarkerText(token)) ==> r.text == before && link.InFlight() == ""
      ensures !(|drained| < MAX_RESPONSE_BYTES && OnlyChatter(drained)) ==>
        r.completion.Lost? && link.LinesSent() == old(link.LinesSent())
      ensures Justified(r, token, restarted)
      ensures var before := stale + link.firmware(old(link.LinesSent()), command);
              && |drained| < MAX_RESPONSE_BYTES && OnlyChatter(drained)
              && c.writeOk && Proper(before) && Smooth(before, token, restarted, c) ==>
                r.completion.Prompt? && r.text == before && link.InFlight() == ""
    {
      synchronized := false;
      var quiet;
      quiet, drained := DrainPending(c);
      stale := link.InFlight();
      if !quiet || !c.writeOk {
        return Response("", Lost), drained, stale;
      }
      ghost var answer := link.firmware(link.LinesSent(), command);
      link.Send(command);
      assert (stale + answer)[|stale + answer| - 2..] == answer[|answer| - 2..];
      r := ReadFramed(stale + answer, token, restarted, c);
    }

    /** The one synchronization of a session: the line 0x15 cancels whatever the firmware had buffered.
        Success proves that the answer was a discard message and that nothing sent or printed before is
        still in flight. A second attempt sends nothing: lost
        framing is never retried. */
    method Synchronize(token: string, restarted: Search, c: Circumstances)
      returns (r: Response, ghost stale: string)
      requires Disciplined(link.firmware) && IsToken(token)
      modifies this, link
      ensures synchronizationAttempted
      ensures old(synchronizationAttempted) ==>
        r.completion.Lost? && synchronized == old(synchronized) && unchanged(link)
      ensures !old(synchronizationAttempted) ==> (synchronized <==> r.completion.Prompt?)
      ensures var before := stale + link.firmware(old(link.LinesSent()), CANCEL_LINE);
              !old(synchronizationAttempted) && synchronized && !Occurs(before, MarkerText(token)) ==>
                r.text == before && Acknowledges(before) && link.InFlight() == ""
      ensures !old(synchronizationAttempted) && synchronized ==> Acknowledges(r.text)
      ensures var answer := link.firmware(old(link.LinesSent()), CANCEL_LINE);
              !old(synchronizationAttempted) && OnlyChatter(old(link.InFlight())) && Drainable(old(link.InFlight()), c)
              && Acknowledges(answer)
              && Completes(link.firmware, old(link.LinesSent()), CANCEL_LINE, token, restarted, c) ==>
                synchronized && r.text == answer && link.InFlight() == ""
    {
      if synchronizationAttempted {
        return Response("", Lost), "";
      }
      synchronizationAttempted := true;
      ghost var drained;
      r, drained, stale := Exchange(CANCEL_LINE, token, restarted, c);
      ghost var answer := link.firmware(old(link.LinesSent()), CANCEL_LINE);
      assert "" + answer == answer && (stale == "" ==> drained == old(link.InFlight()));
      if synchronized && !Acknowledges(r.text) {
        synchronized := false;
        r := r.(completion := Lost);
      }
    }

    /** A command of a synchronized session; otherwise nothing is sent. With nothing in flight, a
        completed response is the command's own answer and again nothing is in flight: no later
        command can be given an earlier one's answer. */
    method Command(command: string, token: string, restarted: Search, c: Circumstances)
      returns (r: Response)
      requires Disciplined(link.firmware) && IsToken(token)
      modifies this`synchronized, link
      ensures !old(synchronized) ==> r.completion.Lost? && !synchronized && unchanged(link)
      ensures synchronized ==> r.completion.Prompt? && link.LinesSent() == old(link.LinesSent()) + 2
      ensures var answer := link.firmware(old(link.LinesSent()), command);
              synchronized && old(link.InFlight()) == "" && !Occurs(answer, MarkerText(token)) ==>
                r.text == answer && link.InFlight() == ""
      // Leftover prompts and blanks are harmless once drained.
      ensures old(synchronized) && OnlyChatter(old(link.InFlight())) && Drainable(old(link.InFlight()), c)
              && Completes(link.firmware, old(link.LinesSent()), command, token, restarted, c) ==>
                synchronized && r.text == link.firmware(old(link.LinesSent()), command) && link.InFlight() == ""
      ensures Justified(r, token, restarted)
    {
      if !synchronized {
        return Response("", Lost);
      }
      ghost var drained, stale;
      r, drained, stale := Exchange(command, token, restarted, c);
      ghost var answer := link.firmware(old(link.LinesSent()), command);
      assert "" + answer == answer;
      if stale == "" {
        assert drained == old(link.InFlight());
      }
    }

    /** A command of a session with nothing in flight. */
    method CleanCommand(command: string, token: string, restarted: Search, c: Circumstances)
      returns (text: string)
      requires Disciplined(link.firmware) && IsToken(token) && Fresh(link.firmware, command, token)
      requires synchronized && link.InFlight() == ""
      modifies this`synchronized, link
      ensures synchronized ==> link.LinesSent() == old(link.LinesSent()) + 2 && link.InFlight() == ""
      ensures synchronized ==> text == link.firmware(old(link.LinesSent()), command)
      ensures Completes(link.firmware, old(link.LinesSent()), command, token, restarted, c) ==> synchronized
    {
      assert !Occurs(link.firmware(link.LinesSent(), command), MarkerText(token));
      var r := Command(command, token, restarted, c);
      text := r.text;
    }

    /** Command `i` of a session that began at line `base`. */
    method NextCommand(commands: seq<string>, tokens: seq<string>, restarted: Search, c: seq<Circumstances>,
                       ghost base: nat, i: nat)
      returns (text: string)
      requires Asked(link.firmware, commands, tokens) && |c| == |commands| && i < |commands|
      requires synchronized && link.InFlight() == "" && link.LinesSent() == base + 2 * i
      modifies this`synchronized, link
      ensures synchronized ==> link.InFlight() == "" && link.LinesSent() == base + 2 * (i + 1)
      ensures synchronized ==> text == link.firmware(base + 2 * i, commands[i])
      ensures !synchronized ==> Stuck(link.firmware, base, commands, tokens, restarted, c, i)
    {
      AskedAt(link.firmware, commands, tokens, i);
      text := CleanCommand(commands[i], tokens[i], restarted, c[i]);
    }

    /** A whole session: a command is sent only while every earlier one completed, and each completed
        one is given its own answer. Every completed exchange took two lines, command and marker. A
        session without trouble completes all its commands. */
    method Session(commands: seq<string>, tokens: seq<string>, restarted: Search, c: seq<Circumstances>)
      returns (texts: seq<string>)
      requires Asked(link.firmware, commands, tokens) && |c| == |commands| && synchronized && link.InFlight() == ""
      modifies this`synchronized, link
      ensures OwnAnswers(link.firmware, old(link.LinesSent()), commands, texts)
      ensures synchronized <==> |texts| == |commands|
      ensures synchronized ==> link.InFlight() == ""
      ensures !synchronized ==> Stuck(link.firmware, old(link.LinesSent()), commands, tokens, restarted, c, |texts|)
    {
      ghost var base := link.LinesSent();
      texts := [];
      while |texts| < |commands|
        invariant OwnAnswers(link.firmware, base, commands, texts) && synchronized && link.InFlight() == ""
        invariant link.LinesSent() == base + 2 * |texts|
      {
        var text := NextCommand(commands, tokens, restarted, c, base, |texts|);
        if !synchronized {
          return;
        }
        OneMoreAnswer(link.firmware, base, commands, texts, text);
        texts := texts + [text];
      }
    }
  }
}
