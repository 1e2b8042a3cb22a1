/**
 trim_to_fit: shrinks a run's transcript, oldest material first, until its
 estimate fits the window.

 The passes run over an array in place. What they compute is stated without
 them: there is a *cut* (p, i) — passes before p have run everywhere, pass p has
 run on the messages before i — and the result is the transcript at the first
 cut that fits.
 */
module ContextBudget {
  import opened Text
  import opened Transcript

  const KEEP_HEAD: nat := 400
  const MIN_SHRINKABLE: nat := 600

  // "…" in UTF-8
  const ELLIPSIS: string := "\U{E2}\U{80}\U{A6}"
  const ELIDED_TAIL: string := " characters elided to keep this run inside the context window]"
  const STUB_HEAD: string := "{\"_elided\":\""
  const STUB_TAIL: string := " characters of arguments, dropped to keep this run inside the context window\"}"

  function Shorten(text: string): string {
    var head := TruncateUtf8Safe(text, KEEP_HEAD);
    head + "\n[" + ELLIPSIS + " " + Decimal(|text| - |head|) + ELIDED_TAIL
  }

  /** The JSON object text that replaces a large argument set. */
  function Stub(size: nat): string {
    STUB_HEAD + Decimal(size) + STUB_TAIL
  }

  function StubCall(c: CallRecord): CallRecord {
    if |c.arguments| < MIN_SHRINKABLE then c else c.(arguments := Stub(|c.arguments|))
  }

  function StubCalls(calls: seq<CallRecord>): (r: seq<CallRecord>)
    ensures |r| == |calls|
  {
    seq(|calls|, k requires 0 <= k < |calls| => StubCall(calls[k]))
  }

  // ── The six passes, in the order they run ──

  const DROP_IMAGES: nat := 0
  const OLD_RESULTS: nat := 1
  const OLD_CALLS: nat := 2
  const NEWEST_RESULTS: nat := 3
  const NEWEST_CALLS: nat := 4
  const PROSE: nat := 5
  const PASSES: nat := 6

  predicate HasLargeArguments(m: ChatMessage) {
    exists k :: 0 <= k < |m.calls| && |m.calls[k].arguments| >= MIN_SHRINKABLE
  }

  /** Pass p has something to take from m. */
  predicate Shrinkable(m: ChatMessage, isNewest: bool, p: nat) {
    if p == DROP_IMAGES then m.role != System && m.role != User && m.images != []
    else if p == OLD_RESULTS then m.role == Tool && |m.content| >= MIN_SHRINKABLE && !isNewest
    else if p == OLD_CALLS then m.role == Assistant && !isNewest && HasLargeArguments(m)
    else if p == NEWEST_RESULTS then m.role == Tool && |m.content| >= MIN_SHRINKABLE
    else if p == NEWEST_CALLS then m.role == Assistant && HasLargeArguments(m)
    else p == PROSE && m.role == Assistant && |m.content| >= MIN_SHRINKABLE
  }

  function Shrunk(m: ChatMessage, p: nat): ChatMessage {
    if p == DROP_IMAGES then m.(images := [])
    else if p == OLD_CALLS || p == NEWEST_CALLS then m.(calls := StubCalls(m.calls))
    else m.(content := Shorten(m.content))
  }

  /** m after the first n passes. */
  function Upto(m: ChatMessage, isNewest: bool, n: nat): ChatMessage {
    if n == 0 then m
    else
      var before := Upto(m, isNewest, n - 1);
      if Shrinkable(before, isNewest, n - 1) then Shrunk(before, n - 1) else before
  }

  // ── What is protected, and what is newest ──

  /** Where the current step begins: at the last assistant message, or past the end when there is none. */
  function Tail(h: seq<ChatMessage>): (tail: nat)
    ensures tail <= |h|
    ensures tail < |h| ==> h[tail].role == Assistant
    ensures forall j :: (if tail < |h| then tail + 1 else 0) <= j < |h| ==> h[j].role != Assistant
  {
    if h == [] then 0
    else if h[|h| - 1].role == Assistant then |h| - 1
    else
      var tail := Tail(h[..|h| - 1]);
      if tail == |h| - 1 then |h| else tail
  }

  predicate Calls(m: ChatMessage, tool: string) {
    m.role == Assistant && exists k :: 0 <= k < |m.calls| && m.calls[k].name == tool
  }

  predicate Reports(m: ChatMessage, tool: string) {
    m.role == Tool && m.name == tool
  }

  ghost predicate NewestReport(h: seq<ChatMessage>, i: nat, tool: string) {
    i < |h| && Reports(h[i], tool) && forall j :: i < j < |h| ==> !Reports(h[j], tool)
  }

  ghost predicate NewestCall(h: seq<ChatMessage>, i: nat, tool: string) {
    i < |h| && Calls(h[i], tool) && forall j :: i < j < |h| ==> !Calls(h[j], tool)
  }

  /** Message i is the newest result, or the newest call, of some tool. */
  ghost predicate IsNewest(h: seq<ChatMessage>, i: nat) {
    exists tool: string :: NewestReport(h, i, tool) || NewestCall(h, i, tool)
  }

  ghost function Newest(h: seq<ChatMessage>): set<nat> {
    set i: nat | i < |h| && IsNewest(h, i)
  }

  // ── Cuts ──

  ghost function AtCut(h: seq<ChatMessage>, p: nat, i: nat): (r: seq<ChatMessage>)
    ensures |r| == |h|
  {
    seq(|h|, k requires 0 <= k < |h| =>
      if k < Tail(h) then Upto(h[k], k in Newest(h), if k < i then p + 1 else p) else h[k])
  }

  ghost function CutTokens(h: seq<ChatMessage>, p: nat, i: nat): nat {
    EstimateTokens(AtCut(h, p, i))
  }

  /** No cut before (p, i) fits `room` tokens. */
  ghost predicate NoneBefore(h: seq<ChatMessage>, room: int, p: nat, i: nat) {
    forall q: nat, j: nat :: j <= Tail(h) && (q < p || (q == p && j < i)) ==> CutTokens(h, q, j) > room
  }

  /** (p, i) is the first cut that fits; (6, 0) when none does. */
  ghost predicate FirstFit(h: seq<ChatMessage>, room: int, p: nat, i: nat) {
    && i <= Tail(h)
    && (p < PASSES || (p == PASSES && i == 0))
    && (CutTokens(h, p, i) <= room || p == PASSES)
    && NoneBefore(h, room, p, i)
  }

  /** What pass p has taken from the messages before i: images, or one per message. */
  ghost function Tally(h: seq<ChatMessage>, p: nat, i: nat): nat
    requires i <= |h|
  {
    if i == 0 then 0
    else Tally(h, p, i - 1) + Taken(Upto(h[i - 1], i - 1 in Newest(h), p), i - 1 in Newest(h), p)
  }

  function Taken(m: ChatMessage, isNewest: bool, p: nat): nat {
    if !Shrinkable(m, isNewest, p) then 0 else if p == DROP_IMAGES then |m.images| else 1
  }

  /** What pass q has taken at cut (p, i). */
  ghost function TakenAt(h: seq<ChatMessage>, q: nat, p: nat, i: nat): nat
    requires i <= |h|
  {
    if q < p then Tally(h, q, Tail(h)) else if q == p then Tally(h, q, i) else 0
  }

  datatype TrimOutcome = TrimOutcome(
    before: int, after: int, fits: bool,
    images: nat, toolResults: nat, toolCalls: nat, assistantTexts: nat)
  {
    predicate Trimmed() { images + toolResults + toolCalls + assistantTexts > 0 }
  }

  ghost function OutcomeAt(h: seq<ChatMessage>, budget: int, overhead: int, p: nat, i: nat): TrimOutcome
    requires i <= |h|
  {
    var after := CutTokens(h, p, i) + overhead;
    TrimOutcome(
      EstimateTokens(h) + overhead, after, after <= budget,
      TakenAt(h, DROP_IMAGES, p, i),
      TakenAt(h, OLD_RESULTS, p, i) + TakenAt(h, NEWEST_RESULTS, p, i),
      TakenAt(h, OLD_CALLS, p, i) + TakenAt(h, NEWEST_CALLS, p, i),
      TakenAt(h, PROSE, p, i))
  }

  /** The transcript and the outcome at cut (p, i). */
  ghost predicate At(h: seq<ChatMessage>, budget: int, overhead: int, p: nat, i: nat,
                     now: seq<ChatMessage>, out: TrimOutcome) {
    && i <= Tail(h)
    && now == AtCut(h, p, i)
    && out == OutcomeAt(h, budget, overhead, p, i)
  }

  /** Still going: neither this cut nor any before it fits. */
  ghost predicate Standing(h: seq<ChatMessage>, budget: int, overhead: int, p: nat, i: nat,
                           now: seq<ChatMessage>, out: TrimOutcome) {
    && At(h, budget, overhead, p, i, now, out)
    && NoneBefore(h, budget - overhead, p, i)
    && !out.fits
  }

  /** What trim_to_fit leaves: the transcript and the outcome at the first cut that fits. */
  ghost predicate IsTrim(h: seq<ChatMessage>, budget: int, overhead: int, p: nat, i: nat,
                         now: seq<ChatMessage>, out: TrimOutcome) {
    && At(h, budget, overhead, p, i, now, out)
    && FirstFit(h, budget - overhead, p, i)
  }

  /** How a pass ends: stopped at the first cut that fits, or at the start of the next pass. */
  ghost predicate PassEnds(h: seq<ChatMessage>, budget: int, overhead: int, p: nat, done: bool, i: nat,
                           now: seq<ChatMessage>, out: TrimOutcome) {
    if done then IsTrim(h, budget, overhead, p, i, now, out)
    else Standing(h, budget, overhead, p + 1, 0, now, out)
  }

  /** The counters after pass p takes something from m. */
  function Counted(out: TrimOutcome, p: nat, m: ChatMessage, after: int, budget: int): TrimOutcome {
    var o := out.(after := after, fits := after <= budget);
    if p == DROP_IMAGES then o.(images := out.images + |m.images|)
    else if p == OLD_RESULTS || p == NEWEST_RESULTS then o.(toolResults := out.toolResults + 1)
    else if p == OLD_CALLS || p == NEWEST_CALLS then o.(toolCalls := out.toolCalls + 1)
    else o.(assistantTexts := out.assistantTexts + 1)
  }

  // ── Moving the cut ──

  lemma CutStart(h: seq<ChatMessage>, budget: int, overhead: int)
    ensures AtCut(h, 0, 0) == h
    ensures var before := EstimateTokens(h) + overhead;
            At(h, budget, overhead, 0, 0, h, TrimOutcome(before, before, before <= budget, 0, 0, 0, 0))
  {
    assert AtCut(h, 0, 0) == h;
  }

  lemma NextPass(h: seq<ChatMessage>, p: nat)
    ensures AtCut(h, p, Tail(h)) == AtCut(h, p + 1, 0)
  {
  }

  /** The end of one pass is the start of the next. */
  lemma EndOfPass(h: seq<ChatMessage>, budget: int, overhead: int, p: nat,
                  now: seq<ChatMessage>, out: TrimOutcome)
    requires Standing(h, budget, overhead, p, Tail(h), now, out)
    ensures Standing(h, budget, overhead, p + 1, 0, now, out)
  {
    hide Upto, EstimateTokens, Newest, Tail;
    NextPass(h, p);
    forall q: nat, j: nat | j <= Tail(h) && q < p + 1 ensures CutTokens(h, q, j) > budget - overhead {
    }
  }

  /** Moving the cut past message i applies pass p to that message alone. */
  lemma CutStep(h: seq<ChatMessage>, p: nat, i: nat)
    requires i < Tail(h)
    ensures AtCut(h, p, i)[i] == Upto(h[i], i in Newest(h), p)
    ensures var m := AtCut(h, p, i)[i];
            AtCut(h, p, i + 1) ==
            if Shrinkable(m, i in Newest(h), p) then AtCut(h, p, i)[i := Shrunk(m, p)] else AtCut(h, p, i)
  {
    var now, next := AtCut(h, p, i), AtCut(h, p, i + 1);
    assert forall k :: 0 <= k < |h| && k != i ==> now[k] == next[k];
    if !Shrinkable(now[i], i in Newest(h), p) {
      assert now == next;
    } else {
      assert now[i := Shrunk(now[i], p)] == next;
    }
  }

  /** The counters at the next cut. */
  lemma OutcomeStep(h: seq<ChatMessage>, budget: int, overhead: int, p: nat, i: nat)
    requires i < Tail(h) && p < PASSES
    ensures var m := Upto(h[i], i in Newest(h), p);
            var after := CutTokens(h, p, i + 1) + overhead;
            var out := OutcomeAt(h, budget, overhead, p, i);
            OutcomeAt(h, budget, overhead, p, i + 1) ==
            if Shrinkable(m, i in Newest(h), p) then Counted(out, p, m, after, budget)
            else out.(after := after, fits := after <= budget)
  {
    hide Upto, CutTokens, Newest, Tail, Shrinkable;
    assert Tally(h, p, i + 1) == Tally(h, p, i) + Taken(Upto(h[i], i in Newest(h), p), i in Newest(h), p);
  }

  /** One iteration of a pass, on values. */
  lemma Advance(h: seq<ChatMessage>, budget: int, overhead: int, p: nat, i: nat,
                now: seq<ChatMessage>, out: TrimOutcome)
    requires Standing(h, budget, overhead, p, i, now, out) && i < Tail(h) && p < PASSES
    ensures i < Tail(h) <= |h| == |now|
    ensures !Shrinkable(now[i], i in Newest(h), p) ==> Standing(h, budget, overhead, p, i + 1, now, out)
    ensures Shrinkable(now[i], i in Newest(h), p) ==>
              var next := now[i := Shrunk(now[i], p)];
              var out' := Counted(out, p, now[i], EstimateTokens(next) + overhead, budget);
              if out'.fits then IsTrim(h, budget, overhead, p, i + 1, next, out')
              else Standing(h, budget, overhead, p, i + 1, next, out')
  {
    hide Upto, EstimateTokens, Newest, Tail, AtCut, Shrinkable, Shrunk, TakenAt, Counted;
    CutStep(h, p, i);
    OutcomeStep(h, budget, overhead, p, i);
    assert out.after == CutTokens(h, p, i) + overhead;
    assert NoneBefore(h, budget - overhead, p, i + 1);
  }

  // ── The in-place algorithm ──

  method ProtectedTail(history: array<ChatMessage>) returns (tail: nat)
    ensures tail == Tail(history[..])
  {
    var i := history.Length;
    while i > 0
      invariant 0 <= i <= history.Length
      invariant forall j :: i <= j < history.Length ==> history[j].role != Assistant
    {
      i := i - 1;
      if history[i].role == Assistant { return i; }
    }
    return history.Length;
  }

  /** `at` maps each tool named before n to the last message that names it. */
  ghost predicate LastReports(h: seq<ChatMessage>, n: nat, at: map<string, nat>)
    requires n <= |h|
  {
    forall tool :: if tool in at then NewestReport(h[..n], at[tool], tool)
                   else forall j :: 0 <= j < n ==> !Reports(h[j], tool)
  }

  ghost predicate LastCalls(h: seq<ChatMessage>, n: nat, at: map<string, nat>)
    requires n <= |h|
  {
    forall tool :: if tool in at then NewestCall(h[..n], at[tool], tool)
                   else forall j :: 0 <= j < n ==> !Calls(h[j], tool)
  }

  /** The inner loop of newest_per_tool: every call of message i claims its tool. */
  method ClaimCalls(m: ChatMessage, i: nat, callAt0: map<string, nat>) returns (callAt: map<string, nat>)
    requires m.role == Assistant
    ensures forall tool :: tool in callAt <==> tool in callAt0 || Calls(m, tool)
    ensures forall tool :: tool in callAt ==> callAt[tool] == if Calls(m, tool) then i else callAt0[tool]
  {
    callAt := callAt0;
    for k := 0 to |m.calls|
      invariant forall tool :: tool in callAt <==> tool in callAt0 || Calls(m.(calls := m.calls[..k]), tool)
      invariant forall tool :: tool in callAt ==>
        callAt[tool] == if Calls(m.(calls := m.calls[..k]), tool) then i else callAt0[tool]
    {
      callAt := callAt[m.calls[k].name := i];
      forall tool ensures Calls(m.(calls := m.calls[..k + 1]), tool) <==>
                          Calls(m.(calls := m.calls[..k]), tool) || tool == m.calls[k].name
      {
        assert m.calls[..k + 1] == m.calls[..k] + [m.calls[k]];
        if tool == m.calls[k].name {
          assert m.calls[..k + 1][k].name == tool;
        }
        if Calls(m.(calls := m.calls[..k]), tool) {
          var l :| 0 <= l < k && m.calls[..k][l].name == tool;
          assert m.calls[..k + 1][l].name == tool;
        }
      }
    }
    assert m.calls[..|m.calls|] == m.calls;
    assert m.(calls := m.calls[..|m.calls|]) == m;
  }

  lemma NewestFromMaps(h: seq<ChatMessage>, resultAt: map<string, nat>, callAt: map<string, nat>)
    requires LastReports(h, |h|, resultAt) && LastCalls(h, |h|, callAt)
    ensures resultAt.Values + callAt.Values == Newest(h)
  {
    assert h[..|h|] == h;
    forall i | i in Newest(h) ensures i in resultAt.Values + callAt.Values {
      var tool :| NewestReport(h, i, tool) || NewestCall(h, i, tool);
      if NewestReport(h, i, tool) {
        assert resultAt[tool] == i;
      } else {
        assert callAt[tool] == i;
      }
    }
    forall i | i in resultAt.Values + callAt.Values ensures i in Newest(h) {
      if i in resultAt.Values {
        var tool :| tool in resultAt && resultAt[tool] == i;
        assert NewestReport(h, i, tool);
      } else {
        var tool :| tool in callAt && callAt[tool] == i;
        assert NewestCall(h, i, tool);
      }
    }
  }

  lemma PushReport(h: seq<ChatMessage>, n: nat, at: map<string, nat>)
    requires n < |h| && LastReports(h, n, at)
    ensures LastReports(h, n + 1, if h[n].role == Tool then at[h[n].name := n] else at)
  {
  }

  lemma PushCalls(h: seq<ChatMessage>, n: nat, at: map<string, nat>, next: map<string, nat>)
    requires n < |h| && LastCalls(h, n, at)
    requires forall tool :: tool in next <==> tool in at || Calls(h[n], tool)
    requires forall tool :: tool in next ==> next[tool] == if Calls(h[n], tool) then n else at[tool]
    ensures LastCalls(h, n + 1, next)
  {
  }

  method NewestPerTool(history: array<ChatMessage>) returns (newest: set<nat>)
    ensures newest == Newest(history[..])
  {
    var resultAt: map<string, nat>, callAt: map<string, nat> := map[], map[];
    ghost var h := history[..];
    for i := 0 to history.Length
      invariant LastReports(h, i, resultAt) && LastCalls(h, i, callAt)
    {
      var m := history[i];
      PushReport(h, i, resultAt);
      if m.role == Tool { resultAt := resultAt[m.name := i]; }
      ghost var earlier := callAt;
      if m.role == Assistant { callAt := ClaimCalls(m, i, callAt); }
      PushCalls(h, i, earlier, callAt);
    }
    newest := resultAt.Values + callAt.Values;
    NewestFromMaps(h, resultAt, callAt);
  }

  method DropImages(history: array<ChatMessage>, tail: nat, budget: int, overhead: int, out0: TrimOutcome,
                    ghost h: seq<ChatMessage>)
    returns (done: bool, out: TrimOutcome, ghost at: nat)
    requires Standing(h, budget, overhead, DROP_IMAGES, 0, history[..], out0) && tail == Tail(h)
    modifies history
    ensures PassEnds(h, budget, overhead, DROP_IMAGES, done, at, history[..], out)
  {
    hide Standing, IsTrim, Shorten, EstimateTokens, Newest, Tail;
    out := out0;
    for i := 0 to tail
      invariant Standing(h, budget, overhead, DROP_IMAGES, i, history[..], out)
    {
      ghost var now := history[..];
      Advance(h, budget, overhead, DROP_IMAGES, i, now, out);
      var m := history[i];
      if !(m.role == System || m.role == User || m.images == []) {
        out := out.(images := out.images + |m.images|);
        history[i] := m.(images := []);
        assert history[..] == now[i := Shrunk(m, DROP_IMAGES)];
        out := out.(after := EstimateTokens(history[..]) + overhead);
        out := out.(fits := out.after <= budget);
        if out.fits { return true, out, i + 1; }
      }
    }
    EndOfPass(h, budget, overhead, DROP_IMAGES, history[..], out);
    return false, out, 0;
  }

  method ShrinkResults(history: array<ChatMessage>, tail: nat, budget: int, overhead: int, out0: TrimOutcome,
                       newest: set<nat>, newestToo: bool, ghost h: seq<ChatMessage>)
    returns (done: bool, out: TrimOutcome, ghost at: nat)
    requires Standing(h, budget, overhead, if newestToo then NEWEST_RESULTS else OLD_RESULTS, 0,
                      history[..], out0)
    requires tail == Tail(h) && newest == Newest(h)
    modifies history
    ensures PassEnds(h, budget, overhead, if newestToo then NEWEST_RESULTS else OLD_RESULTS, done, at,
                     history[..], out)
  {
    ghost var p := if newestToo then NEWEST_RESULTS else OLD_RESULTS;
    hide Standing, IsTrim, Shorten, EstimateTokens, Newest, Tail;
    out := out0;
    for i := 0 to tail
      invariant Standing(h, budget, overhead, p, i, history[..], out)
    {
      ghost var now := history[..];
      Advance(h, budget, overhead, p, i, now, out);
      var m := history[i];
      if m.role == Tool && |m.content| >= MIN_SHRINKABLE && (newestToo || i !in newest) {
        history[i] := m.(content := Shorten(m.content));
        assert history[..] == now[i := Shrunk(m, p)];
        out := out.(toolResults := out.toolResults + 1);
        out := out.(after := EstimateTokens(history[..]) + overhead);
        out := out.(fits := out.after <= budget);
        if out.fits { return true, out, i + 1; }
      }
    }
    EndOfPass(h, budget, overhead, p, history[..], out);
    return false, out, 0;
  }

  method StubEach(calls: seq<CallRecord>) returns (stubbed: seq<CallRecord>, changed: bool)
    ensures stubbed == StubCalls(calls)
    ensures changed <==> exists k :: 0 <= k < |calls| && |calls[k].arguments| >= MIN_SHRINKABLE
  {
    stubbed, changed := calls, false;
    for k := 0 to |calls|
      invariant |stubbed| == |calls|
      invariant forall l :: 0 <= l < |calls| ==> stubbed[l] == if l < k then StubCall(calls[l]) else calls[l]
      invariant changed <==> exists l :: 0 <= l < k && |calls[l].arguments| >= MIN_SHRINKABLE
    {
      if |calls[k].arguments| >= MIN_SHRINKABLE {
        stubbed := stubbed[k := calls[k].(arguments := Stub(|calls[k].arguments|))];
        changed := true;
      }
    }
  }

  method ShrinkCalls(history: array<ChatMessage>, tail: nat, budget: int, overhead: int, out0: TrimOutcome,
                     newest: set<nat>, newestToo: bool, ghost h: seq<ChatMessage>)
    returns (done: bool, out: TrimOutcome, ghost at: nat)
    requires Standing(h, budget, overhead, if newestToo then NEWEST_CALLS else OLD_CALLS, 0,
                      history[..], out0)
    requires tail == Tail(h) && newest == Newest(h)
    modifies history
    ensures PassEnds(h, budget, overhead, if newestToo then NEWEST_CALLS else OLD_CALLS, done, at,
                     history[..], out)
  {
    ghost var p := if newestToo then NEWEST_CALLS else OLD_CALLS;
    hide Standing, IsTrim, Shorten, EstimateTokens, Newest, Tail;
    out := out0;
    for i := 0 to tail
      invariant Standing(h, budget, overhead, p, i, history[..], out)
    {
      ghost var now := history[..];
      Advance(h, budget, overhead, p, i, now, out);
      var m := history[i];
      if m.role == Assistant && (newestToo || i !in newest) {
        var stubbed, changed := StubEach(m.calls);
        if changed {
          history[i] := m.(calls := stubbed);
          assert history[..] == now[i := Shrunk(m, p)];
          out := out.(toolCalls := out.toolCalls + 1);
          out := out.(after := EstimateTokens(history[..]) + overhead);
          out := out.(fits := out.after <= budget);
          if out.fits { return true, out, i + 1; }
        }
      }
    }
    EndOfPass(h, budget, overhead, p, history[..], out);
    return false, out, 0;
  }

  method ShrinkProse(history: array<ChatMessage>, tail: nat, budget: int, overhead: int, out0: TrimOutcome,
                     ghost h: seq<ChatMessage>)
    returns (done: bool, out: TrimOutcome, ghost at: nat)
    requires Standing(h, budget, overhead, PROSE, 0, history[..], out0) && tail == Tail(h)
    modifies history
    ensures PassEnds(h, budget, overhead, PROSE, done, at, history[..], out)
  {
    hide Standing, IsTrim, Shorten, EstimateTokens, Newest, Tail;
    out := out0;
    for i := 0 to tail
      invariant Standing(h, budget, overhead, PROSE, i, history[..], out)
    {
      ghost var now := history[..];
      Advance(h, budget, overhead, PROSE, i, now, out);
      var m := history[i];
      if m.role == Assistant && |m.content| >= MIN_SHRINKABLE {
        history[i] := m.(content := Shorten(m.content));
        assert history[..] == now[i := Shrunk(m, PROSE)];
        out := out.(assistantTexts := out.assistantTexts + 1);
        out := out.(after := EstimateTokens(history[..]) + overhead);
        out := out.(fits := out.after <= budget);
        if out.fits { return true, out, i + 1; }
      }
    }
    EndOfPass(h, budget, overhead, PROSE, history[..], out);
    return false, out, 0;
  }

  /** A trim that fits leaves no more bytes than the budget has room for beside the images. */
  lemma FitsInBytes(h: seq<ChatMessage>, budget: int, overhead: int, p: nat, i: nat,
                    now: seq<ChatMessage>, out: TrimOutcome)
    requires IsTrim(h, budget, overhead, p, i, now, out) && out.fits
    ensures ContentBytes(now) + AllArgumentBytes(now) <= 4 * (budget - overhead - 800 * ImageCount(now)) + 3
  {
    hide EstimateTokens;
    RoomInBytes(now, budget - overhead);
  }

  /** Leaves the transcript at the first cut that fits; what fits, fits in bytes. */
  method TrimToFit(history: array<ChatMessage>, budget: int, overhead: int)
    returns (out: TrimOutcome, ghost p: nat, ghost i: nat)
    modifies history
    ensures IsTrim(old(history[..]), budget, overhead, p, i, history[..], out)
    ensures out.fits ==>
      ContentBytes(history[..]) + AllArgumentBytes(history[..])
      <= 4 * (budget - overhead - 800 * ImageCount(history[..])) + 3
  {
    hide IsTrim;
    out, p, i := RunPasses(history, budget, overhead);
    if out.fits { FitsInBytes(old(history[..]), budget, overhead, p, i, history[..], out); }
  }

  /** Pass by pass, until the estimate fits or nothing is left to take. */
  method RunPasses(history: array<ChatMessage>, budget: int, overhead: int)
    returns (out: TrimOutcome, ghost p: nat, ghost i: nat)
    modifies history
    ensures IsTrim(old(history[..]), budget, overhead, p, i, history[..], out)
  {
    ghost var h := history[..];
    var before := EstimateTokens(history[..]) + overhead;
    out := TrimOutcome(before, before, before <= budget, 0, 0, 0, 0);
    p, i := 0, 0;
    CutStart(h, budget, overhead);
    if out.fits { return; }

    var tail := ProtectedTail(history);
    var done;
    done, out, i := DropImages(history, tail, budget, overhead, out, h);
    if done { return; }
    var newest := NewestPerTool(history);
    CutKeepsNewest(h, OLD_RESULTS, 0);
    p := OLD_RESULTS;
    done, out, i := ShrinkResults(history, tail, budget, overhead, out, newest, false, h);
    if done { return; }
    p := OLD_CALLS;
    done, out, i := ShrinkCalls(history, tail, budget, overhead, out, newest, false, h);
    if done { return; }
    p := NEWEST_RESULTS;
    done, out, i := ShrinkResults(history, tail, budget, overhead, out, newest, true, h);
    if done { return; }
    p := NEWEST_CALLS;
    done, out, i := ShrinkCalls(history, tail, budget, overhead, out, newest, true, h);
    if done { return; }
    p := PROSE;
    done, out, i := ShrinkProse(history, tail, budget, overhead, out, h);
    if done { return; }
    p, i := PASSES, 0;
  }

  // ── What no cut changes ──

  lemma {:induction false} UptoKeepsSkeleton(m: ChatMessage, isNewest: bool, n: nat)
    ensures SameSkeleton(m, Upto(m, isNewest, n))
  {
    if n > 0 {
      UptoKeepsSkeleton(m, isNewest, n - 1);
    }
  }

  lemma SameSkeletonSameNewest(a: seq<ChatMessage>, b: seq<ChatMessage>)
    requires |a| == |b| && forall k :: 0 <= k < |a| ==> SameSkeleton(a[k], b[k])
    ensures Newest(a) == Newest(b)
  {
    forall k: nat, tool | k < |a|
      ensures Reports(a[k], tool) == Reports(b[k], tool) && Calls(a[k], tool) == Calls(b[k], tool)
    {
      assert SameSkeleton(a[k], b[k]);
    }
    forall k: nat, tool
      ensures NewestReport(a, k, tool) == NewestReport(b, k, tool) && NewestCall(a, k, tool) == NewestCall(b, k, tool)
    {
    }
    forall k: nat ensures IsNewest(a, k) == IsNewest(b, k) {
    }
  }

  lemma CutKeepsSkeleton(h: seq<ChatMessage>, p: nat, i: nat)
    ensures forall k :: 0 <= k < |h| ==> SameSkeleton(h[k], AtCut(h, p, i)[k])
  {
    forall k | 0 <= k < |h| ensures SameSkeleton(h[k], AtCut(h, p, i)[k]) {
      if k < Tail(h) {
        UptoKeepsSkeleton(h[k], k in Newest(h), if k < i then p + 1 else p);
      }
    }
  }

  lemma CutKeepsNewest(h: seq<ChatMessage>, p: nat, i: nat)
    ensures Newest(AtCut(h, p, i)) == Newest(h)
  {
    CutKeepsSkeleton(h, p, i);
    SameSkeletonSameNewest(h, AtCut(h, p, i));
  }
}
