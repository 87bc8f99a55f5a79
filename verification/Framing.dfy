/** Text-level framing: prompts, markers, and why a completed exchange read exactly one response. */
module Framing {
  import opened Base

  const MARKER_LABEL := "HIL marker: "

  /** A prompt stands at `i`: "> " at the start of the text or right after a line end. */
  predicate PromptAt(t: string, i: nat) {
    i + 2 <= |t| && t[i] == '>' && t[i + 1] == ' ' && (i == 0 || t[i - 1] == '\r' || t[i - 1] == '\n')
  }

  function Prompts(t: string): set<nat> {
    set i: nat | i < |t| && PromptAt(t, i)
  }

  /** `(?:^|[\r\n])> $`: `$` also matches before one final LF. */
  predicate EndsWithPrompt(t: string) {
    || (|t| >= 2 && PromptAt(t, |t| - 2))
    || (|t| >= 3 && t[|t| - 1] == '\n' && PromptAt(t, |t| - 3))
  }

  predicate OccursAt(t: string, part: string, i: nat) {
    i + |part| <= |t| && t[i..i + |part|] == part
  }

  ghost predicate Occurs(t: string, part: string) {
    exists i: nat :: OccursAt(t, part, i)
  }

  predicate TokenChar(c: char) {
    'a' <= c <= 'z' || 'A' <= c <= 'Z' || '0' <= c <= '9' || c == '_' || c == '-'
  }

  /** What `hilmark` accepts: 1 to 32 letters, digits, underscores or hyphens. */
  predicate IsToken(s: string) {
    1 <= |s| <= 32 && forall i :: 0 <= i < |s| ==> TokenChar(s[i])
  }

  function MarkerText(token: string): string {
    MARKER_LABEL + token
  }

  /** The whole answer to `hilmark token`. */
  function MarkerAnswer(token: string): string {
    MarkerText(token) + "\n> "
  }

  lemma TwoElements(s: set<nat>, a: nat, b: nat, c: nat)
    requires |s| == 2 && a in s && b in s && c in s && a != b && b != c
    ensures a == c
  {
    SubsetSize({a, b, c}, s);
    assert a != c ==> |{a, b, c}| == 3;
  }

  lemma {:induction false} SubsetSize(a: set<nat>, b: set<nat>)
    requires a <= b
    ensures |a| <= |b|
    decreases a
  {
    if a != {} {
      var x :| x in a;
      SubsetSize(a - {x}, b - {x});
    }
  }

  lemma Inside(before: string, after: string, k: string, i: nat)
    requires i + |k| <= |before|
    ensures OccursAt(before + after, k, i) <==> OccursAt(before, k, i)
  {
    assert (before + after)[i..i + |k|] == before[i..i + |k|];
  }

  /** A part that avoids '>' and does not start with a blank cannot begin before a final prompt and
      reach past it. */
  lemma Straddling(before: string, after: string, k: string, i: nat)
    requires |before| >= 2 && before[|before| - 2..] == "> "
    requires i < |before| < i + |k| && k[0] != ' ' && forall j :: 0 <= j < |k| ==> k[j] != '>'
    ensures !OccursAt(before + after, k, i)
  {
    var (all, n) := (before + after, |before|);
    assert before[n - 1] == before[n - 2..][1] == ' ' && before[n - 2] == before[n - 2..][0] == '>';
    if i + |k| <= |all| {
      assert all[i..i + |k|][n - 1 - i] == ' ';
      if n - i >= 2 {
        assert all[i..i + |k|][n - 2 - i] == '>';
      }
    }
  }

  lemma Beyond(before: string, token: string, i: nat)
    requires IsToken(token) && i > |before|
    ensures !OccursAt(before + MarkerAnswer(token), MarkerText(token), i)
  {
    var (k, all, n) := (MarkerText(token), before + MarkerAnswer(token), |before|);
    if i + |k| <= |all| {
      assert k[0] == 'H' && k[1] == 'I' && k[2] == 'L' && k[3] == ' ';
      assert all[i..i + |k|][0] == MarkerAnswer(token)[i - n] == k[i - n];
    }
  }

  /** A marker whose text the answers before it do not contain can be matched only where the
      marker's own answer begins. */
  lemma MarkerPlace(before: string, token: string, received: string, i: nat)
    requires IsToken(token) && !Occurs(before, MarkerText(token))
    requires |before| >= 2 && before[|before| - 2..] == "> "
    requires received <= before + MarkerAnswer(token)
    requires OccursAt(received, MarkerText(token), i)
    ensures i == |before|
  {
    var k, all := MarkerText(token), before + MarkerAnswer(token);
    assert received[i..i + |k|] == all[i..i + |k|];
    assert OccursAt(all, k, i);
    if i + |k| <= |before| {
      Inside(before, MarkerAnswer(token), k, i);
    } else if i < |before| {
      NoArrow(token);
      Straddling(before, MarkerAnswer(token), k, i);
    } else if i > |before| {
      Beyond(before, token, i);
    }
  }

  lemma NoArrow(token: string)
    requires IsToken(token)
    ensures MarkerText(token)[0] == 'H' && forall j :: 0 <= j < |MarkerText(token)| ==> MarkerText(token)[j] != '>'
  {
    forall j | |MARKER_LABEL| <= j < |MarkerText(token)|
      ensures MarkerText(token)[j] != '>'
    {
      assert MarkerText(token)[j] == token[j - |MARKER_LABEL|];
    }
  }

  lemma PromptsOf(before: string, first: string, token: string, a: nat)
    requires first <= before && PromptAt(first, a)
    ensures a in Prompts(before + MarkerAnswer(token))
  {
    assert PromptAt(before + MarkerAnswer(token), a);
  }

  lemma MarkerPrompt(before: string, token: string)
    ensures |before| + |MarkerText(token)| + 1 in Prompts(before + MarkerAnswer(token))
  {
    var (all, end) := (before + MarkerAnswer(token), |before| + |MarkerText(token)|);
    assert all[end..] == "\n> ";
    assert all[end] == all[end..][0] && all[end + 1] == all[end..][1] && all[end + 2] == all[end..][2];
  }

  function LastPrompt(t: string): (i: nat)
    requires EndsWithPrompt(t)
    ensures PromptAt(t, i) && (i + 2 == |t| || (i + 3 == |t| && t[|t| - 1] == '\n'))
  {
    if PromptAt(t, |t| - 2) then |t| - 2 else |t| - 3
  }

  /** The first prompt the runner saw, and the one the marker check found before the marker, are
      the same: no part of the response was still missing when the marker was sent. */
  lemma FirstPromptWasTheLast(first: string, before: string, token: string)
    requires first <= before && EndsWithPrompt(first) && EndsWithPrompt(before)
    requires |before| >= 2 && before[|before| - 2..] == "> "
    requires |Prompts(before + MarkerAnswer(token))| == 2
    ensures first == before
  {
    var (a, b) := (LastPrompt(first), LastPrompt(before));
    assert before[|before| - 1] == before[|before| - 2..][1] == ' ';
    PromptsOf(before, first, token, a);
    PromptsOf(before, before, token, b);
    MarkerPrompt(before, token);
    TwoElements(Prompts(before + MarkerAnswer(token)), a, |before| + |MarkerText(token)| + 1, b);
  }

  // ---- the runner's searches -----------------------------------------------------------

  function TokenSpan(t: string, i: nat): (n: nat)
    requires i <= |t|
    ensures i <= n <= |t| && forall j :: i <= j < n ==> TokenChar(t[j])
    ensures n < |t| ==> !TokenChar(t[n])
    decreases |t| - i
  {
    if i < |t| && TokenChar(t[i]) then TokenSpan(t, i + 1) else i
  }

  /** `HIL marker: ([A-Za-z0-9_-]{1,32})\r?\n` at position `i`: the token's end and the match's end. */
  function MatchAt(t: string, i: nat): Option<(nat, nat)> {
    if !OccursAt(t, MARKER_LABEL, i) then None
    else
      var from := i + |MARKER_LABEL|;
      var to := TokenSpan(t, from);
      if !(1 <= to - from <= 32) then None
      else if to < |t| && t[to] == '\n' then Some((to, to + 1))
      else if to + 1 < |t| && t[to] == '\r' && t[to + 1] == '\n' then Some((to, to + 2))
      else None
  }

  datatype Match = Match(start: nat, tokenEnd: nat, end: nat)

  /** Every match from position `i` on, in order. */
  function MatchesFrom(t: string, i: nat): (r: seq<Match>)
    ensures forall m :: m in r ==> MatchAt(t, m.start) == Some((m.tokenEnd, m.end))
    decreases |t| - i
  {
    if i >= |t| then []
    else
      var rest := MatchesFrom(t, i + 1);
      match MatchAt(t, i)
      case None => rest
      case Some(e) => [Match(i, e.0, e.1)] + rest
  }

  const MARKER_HEAD := "HIL marker:"

  /** Where `MARKER_HEAD` first occurs from `i` on, or the end of the text. */
  function FirstHead(t: string, i: nat): (n: nat)
    requires i <= |t|
    ensures i <= n <= |t|
    ensures forall j :: i <= j < n ==> !OccursAt(t, MARKER_HEAD, j)
    ensures n < |t| ==> OccursAt(t, MARKER_HEAD, n)
    decreases |t| - i
  {
    if i == |t| || OccursAt(t, MARKER_HEAD, i) then i else FirstHead(t, i + 1)
  }

  predicate HasHead(t: string) {
    FirstHead(t, 0) < |t|
  }

  /** `received.split("HIL marker:", 1)[0]` */
  function Original(t: string): string {
    t[..FirstHead(t, 0)]
  }

  /** What the runner checks before it accepts an exchange. */
  predicate Accepts(received: string, token: string) {
    var matches := MatchesFrom(received, 0);
    && |matches| == 1 && |Prompts(received)| == 2
    && var m := matches[0];
       && m.start + |MARKER_LABEL| <= m.tokenEnd <= m.end <= |received|
       && received[m.start + |MARKER_LABEL|..m.tokenEnd] == token
       && EndsWithPrompt(received[..m.start]) && received[m.end..] == "> "
  }

  lemma MatchIsMarker(t: string, i: nat)
    requires MatchAt(t, i).Some?
    ensures var (to, end) := MatchAt(t, i).value;
            && i + |MARKER_LABEL| <= to < end <= |t|
            && OccursAt(t, MarkerText(t[i + |MARKER_LABEL|..to]), i)
            && (t[to] == '\n' ==> end == to + 1)
  {
    var (to, end) := MatchAt(t, i).value;
    assert t[i..to] == t[i..i + |MARKER_LABEL|] + t[i + |MARKER_LABEL|..to];
  }

  lemma SplitPlace(before: string, token: string)
    requires !HasHead(before) && |before| >= 2 && before[|before| - 2..] == "> "
    ensures Original(before + MarkerAnswer(token)) == before
  {
    var (all, n) := (before + MarkerAnswer(token), |before|);
    assert MarkerAnswer(token)[..|MARKER_HEAD|] == MARKER_HEAD;
    assert all[n..n + |MARKER_HEAD|] == MarkerAnswer(token)[..|MARKER_HEAD|];
    assert OccursAt(all, MARKER_HEAD, n);
    forall i: nat | i < n
      ensures !OccursAt(all, MARKER_HEAD, i)
    {
      if i + |MARKER_HEAD| <= n {
        Inside(before, MarkerAnswer(token), MARKER_HEAD, i);
      } else {
        Straddling(before, MarkerAnswer(token), MARKER_HEAD, i);
      }
    }
  }

  /** What was received ends with the marker's own answer. */
  lemma ReceivedAll(before: string, received: string, token: string, m: Match)
    requires IsToken(token) && !Occurs(before, MarkerText(token))
    requires |before| >= 2 && before[|before| - 2..] == "> "
    requires received <= before + MarkerAnswer(token)
    requires MatchAt(received, m.start) == Some((m.tokenEnd, m.end))
    requires m.start + |MARKER_LABEL| <= m.tokenEnd <= m.end <= |received|
    requires received[m.start + |MARKER_LABEL|..m.tokenEnd] == token && received[m.end..] == "> "
    ensures m.start == |before| && received == before + MarkerAnswer(token)
  {
    var (all, n, k) := (before + MarkerAnswer(token), |before|, |MarkerText(token)|);
    MatchIsMarker(received, m.start);
    MarkerPlace(before, token, received, m.start);
    assert all[n + k] == MarkerAnswer(token)[k] == '\n';
    assert |received| == |all|;
  }

  /** Framing is sound. `before` is everything the firmware answers ahead of the marker; `first` is
      what had arrived, with a prompt and no marker label, when the marker was sent. If the runner
      accepts, it has read all of it, up to the last byte, and splits it at the right place. */
  lemma AcceptedExchangeIsWhole(before: string, first: string, received: string, token: string)
    requires IsToken(token) && !Occurs(before, MarkerText(token))
    requires |before| >= 2 && before[|before| - 2..] == "> "
    requires received <= before + MarkerAnswer(token)
    requires first <= before && EndsWithPrompt(first) && !HasHead(first)
    requires Accepts(received, token)
    ensures received == before + MarkerAnswer(token) && Original(received) == before
  {
    ReceivedAll(before, received, token, MatchesFrom(received, 0)[0]);
    assert received[..|before|] == before;
    FirstPromptWasTheLast(first, before, token);
    SplitPlace(before, token);
  }

  // ---- completeness: a clean exchange is accepted ----------------------------------------

  /** A single clean answer: it has one prompt, at its end, and no marker label. */
  predicate Proper(answer: string) {
    && |answer| >= 2 && PromptAt(answer, |answer| - 2)
    && |Prompts(answer)| == 1 && !HasHead(answer)
  }

  lemma OnlyPrompt(answer: string, i: nat)
    requires |answer| >= 2 && PromptAt(answer, |answer| - 2) && |Prompts(answer)| == 1
    requires PromptAt(answer, i)
    ensures i == |answer| - 2
  {
    SubsetSize({i, |answer| - 2}, Prompts(answer));
  }

  lemma ProperEnd(answer: string)
    requires Proper(answer)
    ensures answer[|answer| - 2..] == "> " && EndsWithPrompt(answer)
  {
    assert answer[|answer| - 2..] == [answer[|answer| - 2], answer[|answer| - 1]];
  }

  lemma NoHeadNoLabel(t: string, i: nat)
    requires !HasHead(t)
    ensures !OccursAt(t, MARKER_LABEL, i)
  {
    if OccursAt(t, MARKER_LABEL, i) {
      assert MARKER_LABEL[..|MARKER_HEAD|] == MARKER_HEAD;
      assert t[i..i + |MARKER_HEAD|] == t[i..i + |MARKER_LABEL|][..|MARKER_HEAD|];
      assert OccursAt(t, MARKER_HEAD, i);
    }
  }

  lemma NoHeadNoMarker(t: string, token: string)
    requires !HasHead(t)
    ensures !Occurs(t, MarkerText(token))
  {
    forall i: nat
      ensures !OccursAt(t, MarkerText(token), i)
    {
      if OccursAt(t, MarkerText(token), i) {
        assert t[i..i + |MARKER_LABEL|] == t[i..i + |MarkerText(token)|][..|MARKER_LABEL|] == MARKER_LABEL;
        NoHeadNoLabel(t, i);
      }
    }
  }

  lemma LabelBeyond(before: string, token: string, i: nat)
    requires IsToken(token) && i > |before|
    ensures !OccursAt(before + MarkerAnswer(token), MARKER_LABEL, i)
  {
    var (k, all, n) := (MARKER_LABEL, before + MarkerAnswer(token), |before|);
    if i + |k| <= |all| {
      assert k[0] == 'H' && k[1] == 'I' && k[2] == 'L' && k[3] == ' ';
      assert all[i..i + |k|][0] == MarkerAnswer(token)[i - n];
      assert all[i..i + |k|][3] == MarkerAnswer(token)[i - n + 3];
    }
  }

  lemma LabelPlace(answer: string, token: string, i: nat)
    requires Proper(answer) && IsToken(token) && i != |answer|
    ensures MatchAt(answer + MarkerAnswer(token), i).None?
  {
    var k := MARKER_LABEL;
    ProperEnd(answer);
    if i + |k| <= |answer| {
      Inside(answer, MarkerAnswer(token), k, i);
      NoHeadNoLabel(answer, i);
    } else if i < |answer| {
      Straddling(answer, MarkerAnswer(token), k, i);
    } else {
      LabelBeyond(answer, token, i);
    }
  }

  lemma MarkerMatches(answer: string, token: string)
    requires IsToken(token)
    ensures var (all, end) := (answer + MarkerAnswer(token), |answer| + |MarkerText(token)|);
            && MatchAt(all, |answer|) == Some((end, end + 1))
            && all[|answer| + |MARKER_LABEL|..end] == token && all[end + 1..] == "> "
  {
    var (all, n, end) := (answer + MarkerAnswer(token), |answer|, |answer| + |MarkerText(token)|);
    var from := n + |MARKER_LABEL|;
    assert all[n..from] == MARKER_LABEL;
    assert all[from..end] == token;
    assert all[end..] == "\n> " && all[end] == all[end..][0] == '\n';
    assert all[end + 1..] == all[end..][1..] == "> ";
    forall j | from <= j < end
      ensures TokenChar(all[j])
    {
      assert all[j] == token[j - from];
    }
    assert TokenSpan(all, from) == end;
  }

  lemma {:induction false} NoMatch(t: string, i: nat)
    requires forall j: nat :: i <= j ==> MatchAt(t, j).None?
    ensures MatchesFrom(t, i) == []
    decreases |t| - i
  {
    if i < |t| { NoMatch(t, i + 1); }
  }

  lemma {:induction false} OneMatch(t: string, i: nat, n: nat)
    requires i <= n < |t| && MatchAt(t, n).Some?
    requires forall j: nat :: j != n ==> MatchAt(t, j).None?
    ensures MatchesFrom(t, i) == [Match(n, MatchAt(t, n).value.0, MatchAt(t, n).value.1)]
    decreases |t| - i
  {
    if i < n {
      OneMatch(t, i + 1, n);
    } else {
      NoMatch(t, i + 1);
    }
  }

  /** Behind a proper answer the marker's answer adds one prompt, its own. */
  lemma PromptOfWhole(answer: string, token: string, i: nat)
    requires Proper(answer) && IsToken(token) && PromptAt(answer + MarkerAnswer(token), i)
    ensures i == |answer| - 2 || i == |answer| + |MarkerText(token)| + 1
  {
    var (all, n, k) := (answer + MarkerAnswer(token), |answer|, |MarkerText(token)|);
    if i + 2 <= n {
      assert PromptAt(answer, i);
      OnlyPrompt(answer, i);
    } else if i >= n {
      NoArrow(token);
      assert all[i] == MarkerAnswer(token)[i - n];
    }
  }

  lemma PromptsOfWhole(answer: string, token: string)
    requires Proper(answer) && IsToken(token)
    ensures |Prompts(answer + MarkerAnswer(token))| == 2
  {
    var (all, n, k) := (answer + MarkerAnswer(token), |answer|, |MarkerText(token)|);
    forall i | i in Prompts(all)
      ensures i == n - 2 || i == n + k + 1
    {
      PromptOfWhole(answer, token, i);
    }
    assert PromptAt(all, n - 2);
    MarkerPrompt(answer, token);
    assert Prompts(all) == {n - 2, n + k + 1};
  }

  /** Framing is complete: a proper answer followed by its marker's answer is accepted, and split
      where the marker begins. */
  lemma CleanExchangeIsAccepted(answer: string, token: string)
    requires Proper(answer) && IsToken(token)
    ensures Accepts(answer + MarkerAnswer(token), token)
    ensures Original(answer + MarkerAnswer(token)) == answer
  {
    var (all, n) := (answer + MarkerAnswer(token), |answer|);
    forall j: nat | j != n
      ensures MatchAt(all, j).None?
    {
      LabelPlace(answer, token, j);
    }
    MarkerMatches(answer, token);
    OneMatch(all, 0, n);
    PromptsOfWhole(answer, token);
    ProperEnd(answer);
    assert all[..n] == answer;
    SplitPlace(answer, token);
  }

  /** No prompt shows early: neither before the answer is whole nor between it and the end of the
      marker's own answer. */
  lemma NoEarlyPrompt(answer: string, token: string, m: nat)
    requires Proper(answer) && IsToken(token)
    requires m < |answer + MarkerAnswer(token)| && m != |answer|
    ensures !EndsWithPrompt((answer + MarkerAnswer(token))[..m])
  {
    var (all, n, k) := (answer + MarkerAnswer(token), |answer|, |MarkerText(token)|);
    var t := all[..m];
    NoArrow(token);
    assert all[n] == MarkerText(token)[0] != '\n';
    if EndsWithPrompt(t) {
      var i := LastPrompt(t);
      assert PromptAt(all, i);
      PromptOfWhole(answer, token, i);
    }
  }

  lemma HeadInBody(body: string, i: nat)
    requires OccursAt(body + "\n> ", MARKER_HEAD, i)
    ensures OccursAt(body, MARKER_HEAD, i)
  {
    var all := body + "\n> ";
    assert i < |body| ==> all[|body|] == '\n';
    if i + |MARKER_HEAD| <= |body| {
      Inside(body, "\n> ", MARKER_HEAD, i);
    }
  }

  /** Rows without '>' and without the marker label, then the prompt: a proper answer. */
  lemma PrintedAnswerIsProper(body: string)
    requires '>' !in body && !HasHead(body)
    ensures Proper(body + "\n> ")
  {
    var (all, n) := (body + "\n> ", |body|);
    assert all[n..] == "\n> ";
    assert all[n] == all[n..][0] && all[n + 1] == all[n..][1] && all[n + 2] == all[n..][2];
    assert PromptAt(all, n + 1);
    assert forall i: nat :: i < n ==> all[i] == body[i];
    assert forall i: nat :: PromptAt(all, i) ==> i == n + 1;
    assert Prompts(all) == {n + 1};
    forall i: nat
      ensures !OccursAt(all, MARKER_HEAD, i)
    {
      if OccursAt(all, MARKER_HEAD, i) { HeadInBody(body, i); }
    }
  }
}
