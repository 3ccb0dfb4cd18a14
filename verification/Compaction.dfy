/**
  Token estimates, safe split points and the tail extension of context compaction
  (src/core/compact.ts). Token costs are exact in sevenths: an ASCII code point costs 2/7 of a
  token, any other code point 14/7, everything else whole tokens.
 */
module Compaction {
  import opened Prelude

  type Text = string  // a sequence of code points
  type Id = string

  datatype Role = System | User | Assistant | Tool

  datatype Body = Str(text: Text) | Null | Parts

  // callsJson is the JSON text of calls, which names their ids.
  datatype Message = Message(
    role: Role,
    body: Body,
    calls: Option<seq<Id>>,
    callsJson: Text,
    toolCallId: Option<Id>,
    name: Option<Text>)

  const KEEP_RECENT_MESSAGES: nat := 8
  const TAIL_PRESERVE_TOKEN_BUDGET: nat := 8000

  // ---------------------------------------------------------------- estimates

  predicate Ascii(c: char) { c as int <= 0x7F }

  function CodePointSevenths(c: char): nat { if Ascii(c) then 2 else 14 }

  function TextSevenths(text: Text): nat {
    if text == "" then 0 else TextSevenths(text[..|text| - 1]) + CodePointSevenths(text[|text| - 1])
  }

  // length in UTF-16 units
  function Units(text: Text): nat {
    if text == "" then 0
    else Units(text[..|text| - 1]) + if text[|text| - 1] as int > 0xFFFF then 2 else 1
  }

  method EstimateTextTokens(text: Text) returns (sevenths: nat)
    ensures sevenths == TextSevenths(text)
  {
    var ascii, nonAscii := 0, 0;
    for i := 0 to |text|
      invariant 2 * ascii + 14 * nonAscii == TextSevenths(text[..i])
      invariant 0 <= ascii && 0 <= nonAscii
    {
      assert text[..i + 1][..i] == text[..i];
      if text[i] as int <= 0x7F { ascii := ascii + 1; } else { nonAscii := nonAscii + 1; }
    }
    assert text[..|text|] == text;
    sevenths := 2 * ascii + 14 * nonAscii;
  }

  // Math.ceil(length / 3.5)
  function NameTokens(text: Text): nat { CeilDiv(2 * Units(text), 7) }

  function RoleTokens(role: Role): nat { if role.Assistant? then 3 else 2 }

  function BodySevenths(body: Body): nat {
    match body
    case Str(text) => TextSevenths(text)
    case Null => 7
    case Parts => 0
  }

  function OptionalNameTokens(name: Option<Text>): nat {
    if name.Some? && name.value != "" then 1 + NameTokens(name.value) else 0
  }

  // All of a message but its body.
  function EnvelopeSevenths(m: Message): nat {
    7 * (4 + RoleTokens(m.role))
    + (if m.calls.Some? then TextSevenths(m.callsJson) + 7 else 0)
    + 7 * (OptionalNameTokens(m.name) + OptionalNameTokens(m.toolCallId) + 4)
  }

  function MessageSevenths(m: Message): nat { BodySevenths(m.body) + EnvelopeSevenths(m) }

  // The messages from lo up to hi.
  function Sevenths(ms: seq<Message>, lo: nat, hi: nat): nat
    requires lo <= hi <= |ms|
    decreases hi - lo
  {
    if lo == hi then 0 else Sevenths(ms, lo, hi - 1) + MessageSevenths(ms[hi - 1])
  }

  function Estimate(ms: seq<Message>, lo: nat, hi: nat): nat
    requires lo <= hi <= |ms|
  {
    CeilDiv(Sevenths(ms, lo, hi), 7)
  }

  method EstimateTokens(ms: seq<Message>, lo: nat, hi: nat) returns (tokens: nat)
    requires lo <= hi <= |ms|
    ensures tokens == Estimate(ms, lo, hi)
  {
    var sevenths := 0;
    for i := lo to hi
      invariant sevenths == Sevenths(ms, lo, i)
    {
      var m := ms[i];
      if m.body.Str? {
        var cost := EstimateTextTokens(m.body.text);
        sevenths := sevenths + cost;
      } else if m.body.Null? {
        sevenths := sevenths + 7;
      }
      sevenths := sevenths + 7 * (4 + RoleTokens(m.role));
      if m.calls.Some? {
        var cost := EstimateTextTokens(m.callsJson);
        sevenths := sevenths + cost + 7;
      }
      if m.name.Some? && m.name.value != "" {
        sevenths := sevenths + 7 * (1 + NameTokens(m.name.value));
      }
      if m.toolCallId.Some? && m.toolCallId.value != "" {
        sevenths := sevenths + 7 * (1 + NameTokens(m.toolCallId.value));
      }
      sevenths := sevenths + 28;
    }
    tokens := CeilDiv(sevenths, 7);
  }

  lemma {:induction false} SeventhsSplit(ms: seq<Message>, lo: nat, mid: nat, hi: nat)
    requires lo <= mid <= hi <= |ms|
    ensures Sevenths(ms, lo, hi) == Sevenths(ms, lo, mid) + Sevenths(ms, mid, hi)
    decreases hi - mid
  {
    if mid < hi { SeventhsSplit(ms, lo, mid, hi - 1); }
  }

  // Estimating in two pieces never loses a token and gains at most one.
  lemma EstimateDrift(ms: seq<Message>, lo: nat, mid: nat, hi: nat)
    requires lo <= mid <= hi <= |ms|
    ensures Estimate(ms, lo, hi) <= Estimate(ms, lo, mid) + Estimate(ms, mid, hi) <= Estimate(ms, lo, hi) + 1
  {
    SeventhsSplit(ms, lo, mid, hi);
  }

  // All the text of the messages, in UTF-16 units: bodies, calls, names and the ids they answer.
  function OptionalUnits(name: Option<Text>): nat {
    if name.Some? then Units(name.value) else 0
  }

  function MessageUnits(m: Message): nat {
    (if m.body.Str? then Units(m.body.text) else 0) + (if m.calls.Some? then Units(m.callsJson) else 0)
    + OptionalUnits(m.name) + OptionalUnits(m.toolCallId)
  }

  function AllUnits(ms: seq<Message>, lo: nat, hi: nat): nat
    requires lo <= hi <= |ms|
    decreases hi - lo
  {
    if lo == hi then 0 else AllUnits(ms, lo, hi - 1) + MessageUnits(ms[hi - 1])
  }

  lemma {:induction false} UnitsBoundCost(text: Text)
    ensures 2 * Units(text) <= TextSevenths(text) <= 14 * Units(text)
  {
    if text != "" {
      UnitsBoundCost(text[..|text| - 1]);
    }
  }

  lemma NameCost(name: Option<Text>)
    ensures 2 * OptionalUnits(name) <= 7 * OptionalNameTokens(name) <= 2 * OptionalUnits(name) + 13
    ensures name.Some? && name.value != "" ==> 7 * OptionalNameTokens(name) >= 2 * OptionalUnits(name) + 7
  {
  }

  // An empty message costs ten tokens, an assistant's eleven; a null body costs one more.
  lemma EmptyMessages(calls: Text)
    ensures MessageSevenths(Message(User, Str(""), None, calls, None, None)) == 7 * 10
    ensures MessageSevenths(Message(Tool, Str(""), None, calls, Some(""), Some(""))) == 7 * 10
    ensures MessageSevenths(Message(Assistant, Str(""), None, calls, None, None)) == 7 * 11
    ensures MessageSevenths(Message(Assistant, Null, None, calls, None, None)) == 7 * 12
  {
  }

  lemma MessageCost(m: Message)
    ensures 2 * MessageUnits(m) + 70 <= MessageSevenths(m) <= 14 * MessageUnits(m) + 118
  {
    if m.body.Str? {
      UnitsBoundCost(m.body.text);
    }
    UnitsBoundCost(m.callsJson);
    NameCost(m.name);
    NameCost(m.toolCallId);
  }

  lemma {:induction false} CostOfText(ms: seq<Message>, lo: nat, hi: nat)
    requires lo <= hi <= |ms|
    ensures 2 * AllUnits(ms, lo, hi) + 70 * (hi - lo) <= Sevenths(ms, lo, hi)
    ensures Sevenths(ms, lo, hi) <= 14 * AllUnits(ms, lo, hi) + 118 * (hi - lo)
    decreases hi - lo
  {
    if lo < hi {
      CostOfText(ms, lo, hi - 1);
      MessageCost(ms[hi - 1]);
    }
  }

  /**
    The estimate leaves no text out: it counts a token at least for every 3.5 units of all text in the
    messages and ten for each message, and at most two for every unit and seventeen for each message.
   */
  lemma EstimateCoversText(ms: seq<Message>, lo: nat, hi: nat)
    requires lo <= hi <= |ms|
    ensures 7 * Estimate(ms, lo, hi) >= 2 * AllUnits(ms, lo, hi) + 70 * (hi - lo)
    ensures Estimate(ms, lo, hi) <= 2 * AllUnits(ms, lo, hi) + 17 * (hi - lo)
  {
    CostOfText(ms, lo, hi);
  }

  // ---------------------------------------------------------------- safe boundaries

  predicate Calling(m: Message) {
    m.role.Assistant? && m.calls.Some? && m.calls.value != []
  }

  predicate Calls(m: Message, id: Id) {
    Calling(m) && id in m.calls.value
  }

  predicate Answers(m: Message, id: Id) {
    m.role.Tool? && m.toolCallId == Some(id) && id != ""
  }

  // Some message of the run of tool results right after i answers id.
  ghost predicate Answered(ms: seq<Message>, i: nat, id: Id) {
    exists j :: i < j < |ms| && Answers(ms[j], id) && ToolRun(ms, i + 1, j)
  }

  predicate ToolRun(ms: seq<Message>, lo: int, hi: int)
    requires hi < |ms|
  {
    forall k :: 0 <= lo <= k <= hi ==> ms[k].role.Tool?
  }

  ghost predicate Safe(ms: seq<Message>, i: int) {
    && 0 <= i < |ms|
    && !ms[i].role.Tool?
    && (Calling(ms[i]) ==> forall id :: id in ms[i].calls.value ==> Answered(ms, i, id))
  }

  method IsSafeSplitBoundary(ms: seq<Message>, idx: int) returns (safe: bool)
    ensures safe <==> Safe(ms, idx)
  {
    if idx < 0 || idx >= |ms| { return false; }
    var m := ms[idx];
    if m.role.Tool? { return false; }
    if m.role.Assistant? && m.calls.Some? && m.calls.value != [] {
      var ids := set id | id in m.calls.value;
      var j := idx + 1;
      while j < |ms| && ms[j].role.Tool?
        invariant idx < j <= |ms| && ToolRun(ms, idx + 1, j - 1)
        invariant forall id :: id in ids <==> id in m.calls.value && forall k :: idx < k < j ==> !Answers(ms[k], id)
      {
        if ms[j].toolCallId.Some? && ms[j].toolCallId.value != "" {
          ids := ids - {ms[j].toolCallId.value};
        }
        j := j + 1;
      }
      assert forall id :: id in ids <==> id in m.calls.value && !Answered(ms, idx, id);
      return ids == {};
    }
    return true;
  }

  ghost predicate NoneSafe(ms: seq<Message>, lo: int, hi: int) {
    forall k :: lo <= k < hi ==> !Safe(ms, k)
  }

  // First safe boundary at or after initial, else the last one before it, else the end.
  ghost predicate SplitFor(ms: seq<Message>, initial: int, split: nat) {
    if initial <= 0 then split == 0
    else if !NoneSafe(ms, initial, |ms|) then initial <= split && Safe(ms, split) && NoneSafe(ms, initial, split)
    else if !NoneSafe(ms, 1, initial) then 0 < split < initial && Safe(ms, split) && NoneSafe(ms, split + 1, |ms|)
    else split == |ms|
  }

  method ComputeSafeSplitPointFrom(ms: seq<Message>, initial: int) returns (split: nat)
    requires initial <= |ms|
    ensures SplitFor(ms, initial, split) && split <= |ms|
  {
    if initial <= 0 { return 0; }
    split := initial;
    while split < |ms|
      invariant initial <= split <= |ms| && NoneSafe(ms, initial, split)
    {
      var safe := IsSafeSplitBoundary(ms, split);
      if safe { return; }
      split := split + 1;
    }
    var s := |ms| - 1;
    while s > 0
      invariant 0 <= s < |ms| && NoneSafe(ms, s + 1, |ms|)
    {
      var safe := IsSafeSplitBoundary(ms, s);
      if safe { return s; }
      s := s - 1;
    }
    split := |ms|;
  }

  method ComputeSafeSplitPoint(ms: seq<Message>) returns (split: nat)
    ensures SplitFor(ms, |ms| - KEEP_RECENT_MESSAGES, split) && split <= |ms|
  {
    split := ComputeSafeSplitPointFrom(ms, |ms| - KEEP_RECENT_MESSAGES);
  }

  // ---------------------------------------------------------------- the tail extension

  // The splits the extension chooses from: the start, and every safe boundary in 1..start.
  ghost predicate Candidate(ms: seq<Message>, start: nat, c: int) {
    c == start || (1 <= c < start && Safe(ms, c))
  }

  ghost function NextCandidate(ms: seq<Message>, start: nat, c: nat): (d: nat)
    requires c < start
    ensures c < d <= start && Candidate(ms, start, d)
    ensures forall k :: c < k < d ==> !Candidate(ms, start, k)
    decreases start - c
  {
    if c + 1 == start || Safe(ms, c + 1) then c + 1 else NextCandidate(ms, start, c + 1)
  }

  // The estimate accumulated when the split has been moved back from start to c.
  ghost function Accumulated(ms: seq<Message>, start: nat, c: nat): nat
    requires c <= start <= |ms|
    decreases start - c
  {
    if c == start then Estimate(ms, start, |ms|)
    else
      var d := NextCandidate(ms, start, c);
      Accumulated(ms, start, d) + Estimate(ms, c, d)
  }

  ghost function Steps(ms: seq<Message>, start: nat, c: nat): nat
    requires c <= start <= |ms|
    decreases start - c
  {
    if c == start then 0 else 1 + Steps(ms, start, NextCandidate(ms, start, c))
  }

  // The largest candidate whose accumulated estimate reaches the budget, or else the smallest.
  ghost predicate Extends(ms: seq<Message>, start: nat, budget: nat, split: nat)
    requires start <= |ms|
  {
    && split <= start && Candidate(ms, start, split)
    && (forall c :: split < c <= start && Candidate(ms, start, c) ==> Accumulated(ms, start, c) < budget)
    && (Accumulated(ms, start, split) >= budget || forall c :: 0 <= c < split ==> !Candidate(ms, start, c))
  }

  lemma NextIs(ms: seq<Message>, start: nat, c: nat, d: nat)
    requires c < d <= start && Candidate(ms, start, d) && NoneSafe(ms, c + 1, d)
    ensures NextCandidate(ms, start, c) == d
  {
  }

  // Before the split, the candidates passed have not reached the budget.
  ghost predicate BelowBudget(ms: seq<Message>, start: nat, budget: nat, split: nat)
    requires start <= |ms|
  {
    forall c :: split < c <= start && Candidate(ms, start, c) ==> Accumulated(ms, start, c) < budget
  }

  // Between two neighbouring boundaries there is no candidate.
  lemma NoCandidateBetween(ms: seq<Message>, start: nat, lo: nat, hi: nat)
    requires hi <= start && NoneSafe(ms, lo + 1, hi)
    ensures forall c :: lo < c < hi ==> !Candidate(ms, start, c)
  {
  }

  lemma StaysBelow(ms: seq<Message>, start: nat, budget: nat, split: nat, prev: nat)
    requires prev < split <= start <= |ms|
    requires forall c :: prev < c < split ==> !Candidate(ms, start, c)
    requires BelowBudget(ms, start, budget, split) && Accumulated(ms, start, split) < budget
    ensures BelowBudget(ms, start, budget, prev)
  {
    forall c | prev < c <= start && Candidate(ms, start, c) ensures Accumulated(ms, start, c) < budget {
      assert c == split || split < c;
    }
  }

  // One step back adds the estimate of the messages stepped over.
  lemma StepBack(ms: seq<Message>, start: nat, split: nat, prev: nat)
    requires split <= start <= |ms| && Candidate(ms, start, split)
    requires 1 <= prev < split && Safe(ms, prev) && NoneSafe(ms, prev + 1, split)
    ensures Candidate(ms, start, prev)
    ensures Accumulated(ms, start, prev) == Accumulated(ms, start, split) + Estimate(ms, prev, split)
  {
    NextIs(ms, start, prev, split);
  }

  // The last safe boundary before split, or 0.
  method PreviousSafe(ms: seq<Message>, split: nat) returns (prev: nat)
    requires 0 < split <= |ms|
    ensures prev < split && NoneSafe(ms, prev + 1, split) && (prev >= 1 ==> Safe(ms, prev))
  {
    prev := split - 1;
    while prev >= 1
      invariant prev < split && NoneSafe(ms, prev + 1, split)
    {
      var safe := IsSafeSplitBoundary(ms, prev);
      if safe { return; }
      prev := prev - 1;
    }
  }

  method ExtendTailToTokenBudget(ms: seq<Message>, splitPoint: nat, budget: nat) returns (split: nat)
    requires splitPoint <= |ms|
    ensures Extends(ms, splitPoint, budget, split)
  {
    var tailTokens := EstimateTokens(ms, splitPoint, |ms|);
    split := splitPoint;
    var guard := 0;
    while split > 1 && tailTokens < budget && guard < |ms|
      invariant 0 <= guard <= splitPoint - split
      invariant split <= splitPoint && Candidate(ms, splitPoint, split)
      invariant tailTokens == Accumulated(ms, splitPoint, split)
      invariant BelowBudget(ms, splitPoint, budget, split)
      decreases split
    {
      guard := guard + 1;
      var prev := PreviousSafe(ms, split);
      if prev < 1 { break; }
      NoCandidateBetween(ms, splitPoint, prev, split);
      StaysBelow(ms, splitPoint, budget, split, prev);
      StepBack(ms, splitPoint, split, prev);
      var added := EstimateTokens(ms, prev, split);
      tailTokens := tailTokens + added;
      split := prev;
    }
  }

  // At most one extension is accepted.
  lemma ExtensionIsUnique(ms: seq<Message>, start: nat, budget: nat, a: nat, b: nat)
    requires start <= |ms| && Extends(ms, start, budget, a) && Extends(ms, start, budget, b)
    ensures a == b
  {
  }

  /**
    The accumulated sum covers the true estimate of the kept tail and exceeds it by at most one
    token for each step of the extension.
   */
  lemma {:induction false} AccumulatedDrift(ms: seq<Message>, start: nat, c: nat)
    requires c <= start <= |ms|
    ensures Estimate(ms, c, |ms|) <= Accumulated(ms, start, c) <= Estimate(ms, c, |ms|) + Steps(ms, start, c)
    decreases start - c
  {
    if c < start {
      var d := NextCandidate(ms, start, c);
      AccumulatedDrift(ms, start, d);
      EstimateDrift(ms, c, d, |ms|);
    }
  }

  // ---------------------------------------------------------------- pairing

  ghost predicate HasCaller(ms: seq<Message>, j: nat)
    requires j < |ms|
  {
    exists i, id :: 0 <= i < j && Calls(ms[i], id) && Answers(ms[j], id) && ToolRun(ms, i + 1, j)
  }

  // Every tool result stands in the run right after the message that called for it, and every
  // call is answered there.
  ghost predicate Paired(ms: seq<Message>) {
    AllHaveCallers(ms) && AllAnswered(ms)
  }

  ghost predicate AllHaveCallers(ms: seq<Message>) {
    forall j :: 0 <= j < |ms| && ms[j].role.Tool? ==> HasCaller(ms, j)
  }

  ghost predicate AllAnswered(ms: seq<Message>) {
    forall i, id :: 0 <= i < |ms| && Calls(ms[i], id) ==> Answered(ms, i, id)
  }

  // Results follow calls and calls have results, with anything in between.
  ghost predicate LooselyPaired(ms: seq<Message>) {
    ResultsCalled(ms) && CallsAnswered(ms)
  }

  ghost predicate ResultsCalled(ms: seq<Message>) {
    forall j :: 0 <= j < |ms| && ms[j].role.Tool? ==>
      exists i, id :: 0 <= i < j && Calls(ms[i], id) && Answers(ms[j], id)
  }

  ghost predicate CallsAnswered(ms: seq<Message>) {
    forall i, id :: 0 <= i < |ms| && Calls(ms[i], id) ==> exists j :: i < j < |ms| && Answers(ms[j], id)
  }

  ghost predicate UniqueCalls(ms: seq<Message>) {
    forall i, j, id :: 0 <= i < j < |ms| && Calls(ms[i], id) ==> !Calls(ms[j], id)
  }

  lemma PairedIsLoose(ms: seq<Message>)
    requires Paired(ms)
    ensures LooselyPaired(ms)
  {
    forall j | 0 <= j < |ms| && ms[j].role.Tool?
      ensures exists i, id :: 0 <= i < j && Calls(ms[i], id) && Answers(ms[j], id)
    {
      assert HasCaller(ms, j);
    }
    forall i, id | 0 <= i < |ms| && Calls(ms[i], id) ensures exists j :: i < j < |ms| && Answers(ms[j], id) {
      assert Answered(ms, i, id);
    }
  }

  lemma CallerInTail(ms: seq<Message>, s: nat, j: nat)
    requires s <= j < |ms| && HasCaller(ms, j) && !ms[s].role.Tool?
    ensures HasCaller(ms[s..], j - s)
  {
    var tail := ms[s..];
    var i, id :| 0 <= i < j && Calls(ms[i], id) && Answers(ms[j], id) && ToolRun(ms, i + 1, j);
    assert s <= i;
    assert tail[i - s] == ms[i] && tail[j - s] == ms[j];
    forall k | 0 <= i - s + 1 <= k <= j - s ensures tail[k].role.Tool? {
      assert ms[s + k].role.Tool?;
    }
    assert ToolRun(tail, i - s + 1, j - s);
  }

  lemma AnswerInTail(ms: seq<Message>, s: nat, i: nat, id: Id)
    requires s <= i < |ms| && Answered(ms, i, id)
    ensures Answered(ms[s..], i - s, id)
  {
    var tail := ms[s..];
    var j :| i < j < |ms| && Answers(ms[j], id) && ToolRun(ms, i + 1, j);
    assert tail[j - s] == ms[j];
    forall k | 0 <= i - s + 1 <= k <= j - s ensures tail[k].role.Tool? {
      assert ms[s + k].role.Tool?;
    }
    assert ToolRun(tail, i - s + 1, j - s);
  }

  // Cutting before anything but a tool result keeps the pairing.
  lemma PairedTail(ms: seq<Message>, s: nat)
    requires Paired(ms) && s <= |ms| && (s < |ms| ==> !ms[s].role.Tool?)
    ensures Paired(ms[s..])
  {
    var tail := ms[s..];
    forall j | 0 <= j < |tail| && tail[j].role.Tool? ensures HasCaller(tail, j) {
      CallerInTail(ms, s, s + j);
    }
    forall i, id | 0 <= i < |tail| && Calls(tail[i], id) ensures Answered(tail, i, id) {
      AnswerInTail(ms, s, s + i, id);
    }
  }

  lemma CallerBehind(m: Message, ms: seq<Message>, j: nat)
    requires j < |ms| && HasCaller(ms, j)
    ensures HasCaller([m] + ms, j + 1)
  {
    var all := [m] + ms;
    var i, id :| 0 <= i < j && Calls(ms[i], id) && Answers(ms[j], id) && ToolRun(ms, i + 1, j);
    assert all[i + 1] == ms[i] && all[j + 1] == ms[j];
    forall k | 0 <= i + 2 <= k <= j + 1 ensures all[k].role.Tool? {
      assert ms[k - 1].role.Tool?;
    }
    assert ToolRun(all, i + 2, j + 1);
  }

  lemma AnswerBehind(m: Message, ms: seq<Message>, i: nat, id: Id)
    requires i < |ms| && Answered(ms, i, id)
    ensures Answered([m] + ms, i + 1, id)
  {
    var all := [m] + ms;
    var j :| i < j < |ms| && Answers(ms[j], id) && ToolRun(ms, i + 1, j);
    assert all[j + 1] == ms[j];
    forall k | 0 <= i + 2 <= k <= j + 1 ensures all[k].role.Tool? {
      assert ms[k - 1].role.Tool?;
    }
    assert ToolRun(all, i + 2, j + 1);
  }

  lemma CallersBehind(m: Message, ms: seq<Message>)
    requires AllHaveCallers(ms) && m.role.System?
    ensures AllHaveCallers([m] + ms)
  {
    var all := [m] + ms;
    forall j | 0 <= j < |all| && all[j].role.Tool? ensures HasCaller(all, j) {
      assert all[j] == ms[j - 1];
      CallerBehind(m, ms, j - 1);
    }
  }

  lemma AnswersBehind(m: Message, ms: seq<Message>)
    requires AllAnswered(ms) && m.role.System?
    ensures AllAnswered([m] + ms)
  {
    var all := [m] + ms;
    forall i, id | 0 <= i < |all| && Calls(all[i], id) ensures Answered(all, i, id) {
      assert all[i] == ms[i - 1];
      AnswerBehind(m, ms, i - 1, id);
    }
  }

  // A message that neither calls nor answers may lead.
  lemma PairedBehind(m: Message, ms: seq<Message>)
    requires Paired(ms) && m.role.System?
    ensures Paired([m] + ms)
  {
    CallersBehind(m, ms);
    AnswersBehind(m, ms);
  }

  const SUMMARY_HEADER: Text := "[CONVERSATION SUMMARY \U{2014} previous context compacted]\n\n"

  // What the kept messages may begin with: no tool result, and no calls without their results.
  ghost predicate WholeHead(ms: seq<Message>) {
    && ms != [] && !ms[0].role.Tool?
    && forall id :: Calls(ms[0], id) ==> Answered(ms, 0, id)
  }

  lemma AnswerFromTail(ms: seq<Message>, s: nat, id: Id)
    requires s < |ms| && Answered(ms[s..], 0, id)
    ensures Answered(ms, s, id)
  {
    var tail := ms[s..];
    var j :| 0 < j < |tail| && Answers(tail[j], id) && ToolRun(tail, 1, j);
    forall k | 0 <= s + 1 <= k <= s + j ensures ms[k].role.Tool? {
      assert tail[k - s].role.Tool?;
    }
    assert Answers(ms[s + j], id) && ToolRun(ms, s + 1, s + j);
  }

  /** A boundary is safe exactly if what is kept from it on may begin so, in any history. */
  lemma SafeExactly(ms: seq<Message>, s: nat)
    requires s < |ms|
    ensures Safe(ms, s) <==> WholeHead(ms[s..])
  {
    var tail := ms[s..];
    assert tail[0] == ms[s];
    forall id | Calls(ms[s], id) ensures Answered(ms, s, id) <==> Answered(tail, 0, id) {
      if Answered(ms, s, id) {
        AnswerInTail(ms, s, s, id);
      }
      if Answered(tail, 0, id) {
        AnswerFromTail(ms, s, id);
      }
    }
  }

  function SummaryMessage(summary: Text): Message {
    Message(System, Str(SUMMARY_HEADER + summary), None, "", None, None)
  }

  predicate EndsWith(text: Text, end: Text) {
    |end| <= |text| && text[|text| - |end|..] == end
  }

  // The split that is used: the safe split point, extended.
  ghost predicate TailFrom(ms: seq<Message>, budget: nat, split: nat) {
    exists start: nat ::
      SplitFor(ms, |ms| - KEEP_RECENT_MESSAGES, start) && start <= |ms| && Extends(ms, start, budget, split)
  }

  lemma SplitIsUnique(ms: seq<Message>, initial: int, a: nat, b: nat)
    requires SplitFor(ms, initial, a) && SplitFor(ms, initial, b)
    ensures a == b
  {
  }

  /**
    maybeCompact around its model call: the summary extracted from the answer is a parameter, and an
    empty one is none. Nothing changes, or the history becomes one system message that ends with the
    summary, and the tail from the extended split. For every history and budget, a paired history
    stays paired.
   */
  method MaybeCompact(ms: seq<Message>, summary: Option<Text>, budget: nat)
    returns (compacted: bool, split: nat, out: seq<Message>)
    ensures split <= |ms| && TailFrom(ms, budget, split)
    ensures compacted <==> summary.GetOr("") != "" && |ms| >= 2 * KEEP_RECENT_MESSAGES && split > 0
    ensures out == if compacted then [SummaryMessage(summary.value)] + ms[split..] else ms
    ensures compacted ==> out[0].role.System? && out[0].body.Str? && EndsWith(out[0].body.text, summary.value)
    ensures compacted && split < |ms| ==> WholeHead(out[1..])
    ensures Paired(ms) ==> Paired(out)
  {
    var start := ComputeSafeSplitPoint(ms);
    split := ExtendTailToTokenBudget(ms, start, budget);
    if split == 0 || |ms| < 2 * KEEP_RECENT_MESSAGES || summary.None? || summary.value == "" {
      return false, split, ms;
    }
    compacted := true;
    out := [SummaryMessage(summary.value)] + ms[split..];
    assert out[1..] == ms[split..];
    if split < |ms| {
      SafeExactly(ms, split);
    }
    if Paired(ms) {
      PairedTail(ms, split);
      PairedBehind(SummaryMessage(summary.value), ms[split..]);
    }
  }

  // ---------------------------------------------------------------- the exact condition

  // The last message at or before j that is not a tool result, or -1.
  function LastNonTool(ms: seq<Message>, j: int): (k: int)
    requires -1 <= j < |ms|
    ensures -1 <= k <= j && (0 <= k ==> !ms[k].role.Tool?)
    ensures forall i :: 0 <= i && k < i <= j ==> ms[i].role.Tool?
    decreases j + 1
  {
    if j < 0 then -1 else if !ms[j].role.Tool? then j else LastNonTool(ms, j - 1)
  }

  ghost predicate SafeTailsPaired(ms: seq<Message>) {
    forall s :: 0 <= s < |ms| && Safe(ms, s) ==> LooselyPaired(ms[s..])
  }

  ghost predicate SafeTailsCalled(ms: seq<Message>) {
    forall s :: 0 <= s < |ms| && Safe(ms, s) ==> ResultsCalled(ms[s..])
  }

  lemma CallerWithinTail(ms: seq<Message>, k: nat, j: nat) returns (i: nat, id: Id)
    requires k <= j < |ms| && ms[j].role.Tool? && ResultsCalled(ms[k..])
    ensures k <= i < j && Calls(ms[i], id) && Answers(ms[j], id)
  {
    var tail := ms[k..];
    assert tail[j - k] == ms[j];
    var t;
    t, id :| 0 <= t < j - k && Calls(tail[t], id) && Answers(tail[j - k], id);
    i := k + t;
  }

  // A safe boundary that opens a result's run is the result's caller, or its tail is not paired.
  lemma SafeHeadCalls(ms: seq<Message>, j: nat, caller: nat, id: Id)
    requires UniqueCalls(ms) && caller < j < |ms| && Calls(ms[caller], id) && Answers(ms[j], id)
    requires Safe(ms, LastNonTool(ms, j)) && ResultsCalled(ms[LastNonTool(ms, j)..])
    ensures LastNonTool(ms, j) == caller
  {
    var k := LastNonTool(ms, j);
    var i, x := CallerWithinTail(ms, k, j);
    assert i == caller;
  }

  // If every safe cut keeps loose pairing, a result's caller opens its own run of results.
  lemma {:induction false} CallerOpensRun(ms: seq<Message>, j: nat, caller: nat, id: Id)
    requires CallsAnswered(ms) && UniqueCalls(ms) && SafeTailsCalled(ms)
    requires caller < j < |ms| && Calls(ms[caller], id) && Answers(ms[j], id)
    ensures LastNonTool(ms, j) == caller
    decreases |ms| - LastNonTool(ms, j)
  {
    var k := LastNonTool(ms, j);
    if Safe(ms, k) {
      SafeHeadCalls(ms, j, caller, id);
    } else {
      var y :| y in ms[k].calls.value && !Answered(ms, k, y);
      assert Calls(ms[k], y);
      var j2 :| k < j2 < |ms| && Answers(ms[j2], y);
      assert !ToolRun(ms, k + 1, j2);
      assert LastNonTool(ms, j2) > k;
      CallerOpensRun(ms, j2, k, y);
      assert false;
    }
  }

  lemma SafeTailsForcePairing(ms: seq<Message>)
    requires LooselyPaired(ms) && UniqueCalls(ms) && SafeTailsPaired(ms)
    ensures Paired(ms)
  {
    assert SafeTailsCalled(ms);
    forall j | 0 <= j < |ms| && ms[j].role.Tool? ensures HasCaller(ms, j) {
      var i, id :| 0 <= i < j && Calls(ms[i], id) && Answers(ms[j], id);
      CallerOpensRun(ms, j, i, id);
      assert ToolRun(ms, i + 1, j);
    }
    forall i, id | 0 <= i < |ms| && Calls(ms[i], id) ensures Answered(ms, i, id) {
      var j :| i < j < |ms| && Answers(ms[j], id);
      CallerOpensRun(ms, j, i, id);
      assert ToolRun(ms, i + 1, j);
    }
  }

  /**
    Where safe boundaries are enough: in a history whose results merely follow their calls, every
    safe cut keeps calls and results together if and only if each call's results come right after it.
   */
  lemma SafeCutsExactly(ms: seq<Message>)
    requires LooselyPaired(ms) && UniqueCalls(ms)
    ensures SafeTailsPaired(ms) <==> Paired(ms)
  {
    if SafeTailsPaired(ms) {
      SafeTailsForcePairing(ms);
    }
    if Paired(ms) {
      forall s | 0 <= s < |ms| && Safe(ms, s) ensures LooselyPaired(ms[s..]) {
        PairedTail(ms, s);
        PairedIsLoose(ms[s..]);
      }
    }
  }

  // A history that is loosely paired, and a safe boundary that orphans a result.
  lemma SafeCutOrphansResult(ms: seq<Message>)
    requires ms == [
      Message(Assistant, Null, Some(["x"]), "", None, None),
      Message(User, Str(""), None, "", None, None),
      Message(Tool, Str(""), None, "", Some("x"), None)]
    ensures LooselyPaired(ms) && UniqueCalls(ms) && Safe(ms, 1) && !LooselyPaired(ms[1..])
  {
    assert Calls(ms[0], "x") && Answers(ms[2], "x");
    assert ms[1..] == [ms[1], ms[2]];
    assert ms[1..][1].role.Tool?;
  }

  // The shortest histories maybeCompact looks at: a call, fourteen messages of the user, its result.
  function LateAnswer(id: Id): seq<Message> {
    seq(16, i => if i == 0 then Message(Assistant, Null, Some([id]), "", None, None)
                 else if i == 15 then Message(Tool, Str(""), None, "", Some(id), None)
                 else Message(User, Str(""), None, "", None, None))
  }

  lemma LateAnswerShape(id: Id)
    requires id != ""
    ensures var ms := LateAnswer(id);
            && Calls(ms[0], id) && Answers(ms[15], id)
            && (forall i, x :: 0 <= i < 16 && Calls(ms[i], x) ==> i == 0 && x == id)
            && (forall i :: 0 <= i < 16 ==> (ms[i].role.Tool? <==> i == 15))
  {
  }

  lemma LateAnswerIsLoose(id: Id)
    requires id != ""
    ensures LooselyPaired(LateAnswer(id)) && UniqueCalls(LateAnswer(id))
  {
    LateAnswerShape(id);
    var ms := LateAnswer(id);
    forall j | 0 <= j < |ms| && ms[j].role.Tool?
      ensures exists i, x :: 0 <= i < j && Calls(ms[i], x) && Answers(ms[j], x)
    {
      assert j == 15 && Calls(ms[0], id) && Answers(ms[15], id);
    }
    forall i, x | 0 <= i < |ms| && Calls(ms[i], x) ensures exists j :: i < j < |ms| && Answers(ms[j], x) {
      assert i == 0 && x == id && Answers(ms[15], id);
    }
  }

  // Whatever the budget, the split falls between the call and its result.
  lemma LateAnswerIsCut(id: Id, budget: nat, split: nat)
    requires id != ""
    ensures TailFrom(LateAnswer(id), budget, split) ==> 1 <= split <= 8
  {
    var ms := LateAnswer(id);
    assert Safe(ms, 8);
    assert SplitFor(ms, 8, 8);
    if start: nat :| SplitFor(ms, 8, start) && start <= |ms| && Extends(ms, start, budget, split) {
      SplitIsUnique(ms, 8, start, 8);
    }
  }

  lemma CutOrphans(id: Id, summary: Message, split: nat, out: seq<Message>)
    requires id != "" && 1 <= split <= 8 && summary.role.System? && out == [summary] + LateAnswer(id)[split..]
    ensures Answers(out[|out| - 1], id) && forall i, x :: 0 <= i < |out| ==> !Calls(out[i], x)
  {
    LateAnswerShape(id);
    forall i, x | 0 <= i < |out| ensures !Calls(out[i], x) {
      if i > 0 {
        assert out[i] == LateAnswer(id)[split + i - 1];
      }
    }
  }

  // The whole function on such a history, which was paired: what is left answers a call that is gone.
  method MaybeCompactOrphans(id: Id, summary: Text, budget: nat) returns (out: seq<Message>)
    requires id != "" && summary != ""
    ensures LooselyPaired(LateAnswer(id)) && UniqueCalls(LateAnswer(id))
    ensures out != [] && Answers(out[|out| - 1], id) && forall i, x :: 0 <= i < |out| ==> !Calls(out[i], x)
  {
    var compacted, split;
    compacted, split, out := MaybeCompact(LateAnswer(id), Some(summary), budget);
    LateAnswerIsCut(id, budget, split);
    LateAnswerIsLoose(id);
    CutOrphans(id, SummaryMessage(summary), split, out);
  }
}
