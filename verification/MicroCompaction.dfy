/** Clearing old tool results in place: microCompact in src/core/compact.ts. */
module MicroCompaction {
  import opened Prelude
  import opened Compaction

  const KEEP_RECENT_TOOL_RESULTS: nat := 6
  const CLEARED_PLACEHOLDER: Text := "[Old tool result content cleared " + ("\U{2014}" + " re-run the tool if needed]")
  const COMPACTABLE_TOOLS: set<Text> := {"Read", "Glob", "Grep", "WebFetch", "WebSearch", "Bash"}

  // A compactable tool result that is not yet cleared.
  predicate Clearable(m: Message) {
    && m.role.Tool? && m.name.Some? && m.name.value in COMPACTABLE_TOOLS
    && m.body != Str(CLEARED_PLACEHOLDER)
  }

  // Clearing pays: longer, in UTF-16 units, than the placeholder.
  predicate Substantial(m: Message) {
    m.body.Str? && Units(m.body.text) > Units(CLEARED_PLACEHOLDER)
  }

  // How many clearable results there are from lo up to hi.
  function Clearables(ms: seq<Message>, lo: nat, hi: nat): nat
    requires lo <= hi <= |ms|
    decreases hi - lo
  {
    if lo == hi then 0 else Clearables(ms, lo, hi - 1) + if Clearable(ms[hi - 1]) then 1 else 0
  }

  // Old: at least six newer clearable results follow.
  predicate Clears(ms: seq<Message>, i: nat)
    requires i < |ms|
  {
    Clearable(ms[i]) && Substantial(ms[i]) && Clearables(ms, i + 1, |ms|) >= KEEP_RECENT_TOOL_RESULTS
  }

  function Cleared(m: Message): Message {
    m.(body := Str(CLEARED_PLACEHOLDER))
  }

  function Micro(ms: seq<Message>): (out: seq<Message>)
    ensures |out| == |ms|
  {
    seq(|ms|, i requires 0 <= i < |ms| => if Clears(ms, i) then Cleared(ms[i]) else ms[i])
  }

  // How many messages Micro clears before n.
  function ClearedCount(ms: seq<Message>, n: nat): nat
    requires n <= |ms|
  {
    if n == 0 then 0 else ClearedCount(ms, n - 1) + if Clears(ms, n - 1) then 1 else 0
  }

  lemma {:induction false} ClearablesSplit(ms: seq<Message>, lo: nat, mid: nat, hi: nat)
    requires lo <= mid <= hi <= |ms|
    ensures Clearables(ms, lo, hi) == Clearables(ms, lo, mid) + Clearables(ms, mid, hi)
    decreases hi - mid
  {
    if mid < hi { ClearablesSplit(ms, lo, mid, hi - 1); }
  }

  // ---------------------------------------------------------------- the method

  // Clears the substantial results among the first entries of the list.
  method ClearOld(ms: array<Message>, indices: seq<nat>, toClear: nat) returns (toolsCleared: nat)
    requires Lists(ms[..], indices)
    requires toClear == if |indices| <= KEEP_RECENT_TOOL_RESULTS then 0 else |indices| - KEEP_RECENT_TOOL_RESULTS
    modifies ms
    ensures ms[..] == Micro(old(ms[..]))
    ensures toolsCleared == ClearedCount(old(ms[..]), ms.Length)
  {
    ghost var was := ms[..];
    toolsCleared := 0;
    var n := 0;
    ghost var done := 0;
    while n < toClear
      invariant 0 <= n <= toClear && done <= ms.Length
      invariant done == if n == 0 then 0 else indices[n - 1] + 1
      invariant forall i :: 0 <= i < done ==> ms[i] == Micro(was)[i]
      invariant forall i :: done <= i < ms.Length ==> ms[i] == was[i]
      invariant toolsCleared == ClearedCount(was, done)
    {
      var idx := indices[n];
      NoneBetween(was, indices, n, done, idx);
      IndexRank(was, indices, n);
      if Substantial(ms[idx]) {
        ms[idx] := Cleared(ms[idx]);
        toolsCleared := toolsCleared + 1;
      }
      n := n + 1;
      done := idx + 1;
    }
    RestKept(was, indices, toClear, done);
  }

  // Collects the clearable indices, keeps the newest six, clears the substantial rest in place.
  method MicroCompact(ms: array<Message>) returns (toolsCleared: nat, tokensBefore: nat, tokensAfter: nat)
    modifies ms
    ensures ms[..] == Micro(old(ms[..]))
    ensures toolsCleared == ClearedCount(old(ms[..]), ms.Length)
    ensures tokensBefore == Estimate(old(ms[..]), 0, ms.Length)
    ensures tokensAfter == Estimate(ms[..], 0, ms.Length)
  {
    ghost var was := ms[..];
    tokensBefore := EstimateTokens(ms[..], 0, ms.Length);
    tokensAfter := tokensBefore;
    var indices := ClearableIndices(ms[..]);
    var total := |indices|;
    var toClear := if total <= KEEP_RECENT_TOOL_RESULTS then 0 else total - KEEP_RECENT_TOOL_RESULTS;
    toolsCleared := ClearOld(ms, indices, toClear);
    if toolsCleared > 0 {
      tokensAfter := EstimateTokens(ms[..], 0, ms.Length);
    } else {
      NothingCleared(was, ms.Length);
      assert ms[..] == was;
    }
  }

  // indices lists the clearable messages in order.
  ghost predicate Lists(ms: seq<Message>, indices: seq<nat>) {
    && (forall a, b :: 0 <= a < b < |indices| ==> indices[a] < indices[b])
    && (forall a :: 0 <= a < |indices| ==> indices[a] < |ms| && Clearable(ms[indices[a]]))
    && (forall i :: 0 <= i < |ms| && Clearable(ms[i]) ==> i in indices)
  }

  method ClearableIndices(ms: seq<Message>) returns (indices: seq<nat>)
    ensures Lists(ms, indices)
  {
    indices := [];
    for i := 0 to |ms|
      invariant forall a, b :: 0 <= a < b < |indices| ==> indices[a] < indices[b]
      invariant forall a :: 0 <= a < |indices| ==> indices[a] < i && Clearable(ms[indices[a]])
      invariant forall k :: 0 <= k < i && Clearable(ms[k]) ==> k in indices
    {
      var m := ms[i];
      if m.role.Tool? && m.name.Some? && m.name.value in COMPACTABLE_TOOLS {
        if m.body != Str(CLEARED_PLACEHOLDER) {
          indices := indices + [i];
        }
      }
    }
  }

  // The n-th listed message has exactly the later entries after it.
  lemma {:induction false} IndexRank(ms: seq<Message>, indices: seq<nat>, n: nat)
    requires Lists(ms, indices) && n < |indices|
    ensures Clearables(ms, indices[n] + 1, |ms|) == |indices| - 1 - n
    decreases |indices| - n
  {
    var i := indices[n];
    if n + 1 == |indices| {
      forall k | i < k < |ms| ensures !Clearable(ms[k]) {
      }
      NoClearables(ms, i + 1, |ms|);
    } else {
      var j := indices[n + 1];
      forall k | i < k < j ensures !Clearable(ms[k]) {
        if k in indices {
          var a :| 0 <= a < |indices| && indices[a] == k;
        }
      }
      NoClearables(ms, i + 1, j);
      IndexRank(ms, indices, n + 1);
      ClearablesSplit(ms, i + 1, j, |ms|);
      ClearablesSplit(ms, j, j + 1, |ms|);
      assert Clearables(ms, j, j + 1) == 1;
    }
  }

  lemma {:induction false} NoClearables(ms: seq<Message>, lo: nat, hi: nat)
    requires lo <= hi <= |ms| && forall k :: lo <= k < hi ==> !Clearable(ms[k])
    ensures Clearables(ms, lo, hi) == 0
    decreases hi - lo
  {
    if lo < hi { NoClearables(ms, lo, hi - 1); }
  }

  lemma {:induction false} CountSteady(ms: seq<Message>, lo: nat, hi: nat)
    requires lo <= hi <= |ms| && forall k :: lo <= k < hi ==> !Clears(ms, k)
    ensures ClearedCount(ms, hi) == ClearedCount(ms, lo)
    decreases hi - lo
  {
    if lo < hi { CountSteady(ms, lo, hi - 1); }
  }

  lemma NoneBetween(ms: seq<Message>, indices: seq<nat>, n: nat, done: nat, idx: nat)
    requires Lists(ms, indices) && n < |indices| && idx == indices[n]
    requires done == if n == 0 then 0 else indices[n - 1] + 1
    ensures done <= idx && forall k :: done <= k < idx ==> !Clears(ms, k)
    ensures ClearedCount(ms, idx) == ClearedCount(ms, done)
  {
    forall k | done <= k < idx ensures !Clearable(ms[k]) {
      if k in indices {
        var a :| 0 <= a < |indices| && indices[a] == k;
      }
    }
    CountSteady(ms, done, idx);
  }

  // What comes after the cleared prefix of the list is kept.
  lemma RestKept(ms: seq<Message>, indices: seq<nat>, toClear: nat, done: nat)
    requires Lists(ms, indices)
    requires toClear == if |indices| <= KEEP_RECENT_TOOL_RESULTS then 0 else |indices| - KEEP_RECENT_TOOL_RESULTS
    requires done == if toClear == 0 then 0 else indices[toClear - 1] + 1
    ensures done <= |ms| && forall k :: done <= k < |ms| ==> !Clears(ms, k)
    ensures ClearedCount(ms, |ms|) == ClearedCount(ms, done)
  {
    forall k | done <= k < |ms| ensures !Clears(ms, k) {
      if Clearable(ms[k]) {
        var a :| 0 <= a < |indices| && indices[a] == k;
        IndexRank(ms, indices, a);
      }
    }
    CountSteady(ms, done, |ms|);
  }

  lemma {:induction false} NothingCleared(ms: seq<Message>, n: nat)
    requires n <= |ms| && ClearedCount(ms, n) == 0
    ensures forall k :: 0 <= k < n ==> !Clears(ms, k) && Micro(ms)[k] == ms[k]
  {
    if n > 0 { NothingCleared(ms, n - 1); }
  }

  // ---------------------------------------------------------------- what it keeps

  lemma {:induction false} FewerClearables(ms: seq<Message>, lo: nat, hi: nat)
    requires lo <= hi <= |ms|
    ensures Clearables(Micro(ms), lo, hi) <= Clearables(ms, lo, hi)
    decreases hi - lo
  {
    if lo < hi { FewerClearables(ms, lo, hi - 1); }
  }

  /** Clearing twice clears nothing more. */
  lemma MicroIsIdempotent(ms: seq<Message>)
    ensures Micro(Micro(ms)) == Micro(ms)
  {
    var out := Micro(ms);
    forall i | 0 <= i < |ms| ensures !Clears(out, i) {
      FewerClearables(ms, i + 1, |ms|);
    }
  }

  // Only bodies change, only to the placeholder, and only of results of the compactable tools that are
  // longer than its 61 units and have six newer ones behind them.
  lemma MicroChangesOnlyOldResults(ms: seq<Message>, i: nat)
    requires i < |ms|
    ensures Micro(ms)[i] == ms[i] || Micro(ms)[i] == ms[i].(body := Str(CLEARED_PLACEHOLDER))
    ensures Micro(ms)[i] != ms[i] <==>
      && ms[i].role.Tool? && ms[i].name.Some? && ms[i].name.value in COMPACTABLE_TOOLS
      && ms[i].body.Str? && Units(ms[i].body.text) > 61
      && |ResultsFrom(ms, i + 1)| >= 6
  {
    PlaceholderSize();
    ResultsCounted(ms, i + 1);
  }

  // The count reported is that of the messages changed.
  function Changed(ms: seq<Message>, n: nat): set<nat>
    requires n <= |ms|
  {
    set i: nat | i < n && Micro(ms)[i] != ms[i]
  }

  lemma ChangedNext(ms: seq<Message>, n: nat)
    requires n < |ms|
    ensures |Changed(ms, n + 1)| == |Changed(ms, n)| + if Clears(ms, n) then 1 else 0
  {
    assert Micro(ms)[n] != ms[n] <==> Clears(ms, n);
    assert Changed(ms, n + 1) == Changed(ms, n) + if Clears(ms, n) then {n} else {};
  }

  lemma {:induction false} CountsTheChanged(ms: seq<Message>, n: nat)
    requires n <= |ms|
    ensures ClearedCount(ms, n) == |Changed(ms, n)|
  {
    if n > 0 {
      CountsTheChanged(ms, n - 1);
      ChangedNext(ms, n - 1);
    }
  }

  // The clearable results from some point on, oldest first.
  function ResultsFrom(ms: seq<Message>, lo: nat): seq<Message>
    requires lo <= |ms|
    decreases |ms| - lo
  {
    if lo == |ms| then [] else (if Clearable(ms[lo]) then [ms[lo]] else []) + ResultsFrom(ms, lo + 1)
  }

  lemma {:induction false} ResultsCounted(ms: seq<Message>, lo: nat)
    requires lo <= |ms|
    ensures |ResultsFrom(ms, lo)| == Clearables(ms, lo, |ms|)
    decreases |ms| - lo
  {
    if lo < |ms| {
      ResultsCounted(ms, lo + 1);
      ClearablesSplit(ms, lo, lo + 1, |ms|);
      assert Clearables(ms, lo, lo + 1) == Clearables(ms, lo, lo) + if Clearable(ms[lo]) then 1 else 0;
    }
  }

  function Newest(results: seq<Message>): seq<Message> {
    if |results| <= KEEP_RECENT_TOOL_RESULTS then results else results[|results| - KEEP_RECENT_TOOL_RESULTS..]
  }

  lemma NewestOfMore(m: Message, results: seq<Message>)
    requires |results| >= KEEP_RECENT_TOOL_RESULTS
    ensures Newest([m] + results) == Newest(results)
  {
  }

  /** The six newest uncleared compactable results come through untouched. */
  lemma {:induction false} NewestResultsKept(ms: seq<Message>, lo: nat)
    requires lo <= |ms|
    ensures Newest(ResultsFrom(Micro(ms), lo)) == Newest(ResultsFrom(ms, lo))
    decreases |ms| - lo
  {
    if lo < |ms| {
      NewestResultsKept(ms, lo + 1);
      ResultsCounted(ms, lo + 1);
      var out := Micro(ms);
      var was, now := ResultsFrom(ms, lo + 1), ResultsFrom(out, lo + 1);
      assert ResultsFrom(ms, lo) == if Clearable(ms[lo]) then [ms[lo]] + was else was;
      assert ResultsFrom(out, lo) == if Clearable(out[lo]) then [out[lo]] + now else now;
      if |was| < KEEP_RECENT_TOOL_RESULTS {
        assert out[lo] == ms[lo] && was == now;
      } else {
        NewestOfMore(ms[lo], was);
        NewestOfMore(out[lo], now);
      }
    }
  }

  // ---------------------------------------------------------------- token bounds

  lemma {:induction false} AsciiText(text: Text)
    requires forall i :: 0 <= i < |text| ==> Ascii(text[i])
    ensures TextSevenths(text) == 2 * |text| && Units(text) == |text|
  {
    if text != "" {
      assert Ascii(text[|text| - 1]);
      AsciiText(text[..|text| - 1]);
    }
  }

  lemma {:induction false} TextJoin(a: Text, b: Text)
    ensures TextSevenths(a + b) == TextSevenths(a) + TextSevenths(b) && Units(a + b) == Units(a) + Units(b)
  {
    if b == "" {
      assert a + b == a;
    } else {
      TextJoin(a, b[..|b| - 1]);
      assert (a + b)[..|a + b| - 1] == a + b[..|b| - 1];
    }
  }

  // 61 units: 60 ASCII and one dash.
  lemma PlaceholderSize()
    ensures Units(CLEARED_PLACEHOLDER) == 61 && TextSevenths(CLEARED_PLACEHOLDER) == 134
  {
    var head, dash, rest := "[Old tool result content cleared ", "\U{2014}", " re-run the tool if needed]";
    assert CLEARED_PLACEHOLDER == head + (dash + rest);
    AsciiText(head);
    AsciiText(rest);
    TextJoin(head, dash + rest);
    TextJoin(dash, rest);
    assert dash[..0] == "";
  }

  // Clearing one result costs at most 10/7 of a token, and nothing if it had 67 units or more.
  lemma ClearingCost(m: Message)
    requires Substantial(m)
    ensures MessageSevenths(Cleared(m)) <= MessageSevenths(m) + 10
    ensures Units(m.body.text) >= 67 ==> MessageSevenths(Cleared(m)) <= MessageSevenths(m)
  {
    PlaceholderSize();
    UnitsBoundCost(m.body.text);
  }

  lemma {:induction false} MicroCost(ms: seq<Message>, n: nat)
    requires n <= |ms|
    ensures Sevenths(Micro(ms), 0, n) <= Sevenths(ms, 0, n) + 10 * ClearedCount(ms, n)
    ensures (forall i :: 0 <= i < n && Clears(ms, i) ==> Units(ms[i].body.text) >= 67) ==>
      Sevenths(Micro(ms), 0, n) <= Sevenths(ms, 0, n)
  {
    if n > 0 {
      MicroCost(ms, n - 1);
      if Clears(ms, n - 1) { ClearingCost(ms[n - 1]); }
    }
  }

  /**
    The token estimate rises by at most ten sevenths a cleared result, rounded up, and not at all
    if every cleared result had 67 units or more.
   */
  lemma MicroTokens(ms: seq<Message>)
    ensures Estimate(Micro(ms), 0, |ms|) <= Estimate(ms, 0, |ms|) + CeilDiv(10 * ClearedCount(ms, |ms|), 7)
    ensures (forall i :: 0 <= i < |ms| && Clears(ms, i) ==> Units(ms[i].body.text) >= 67) ==>
      Estimate(Micro(ms), 0, |ms|) <= Estimate(ms, 0, |ms|)
  {
    MicroCost(ms, |ms|);
  }
}
