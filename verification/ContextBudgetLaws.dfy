/** What every run of trim_to_fit keeps, in which order it takes, and where it stops. */
module ContextBudgetLaws {
  import opened Text
  import opened Transcript
  import opened ContextBudget

  /** A trim keeps the shape of the transcript and everything it promises to protect. */
  lemma TrimProtects(h: seq<ChatMessage>, budget: int, overhead: int, p: nat, i: nat,
                     now: seq<ChatMessage>, out: TrimOutcome)
    requires IsTrim(h, budget, overhead, p, i, now, out)
    ensures |now| == |h|
    ensures forall k :: 0 <= k < |h| ==> SameSkeleton(h[k], now[k])
    ensures forall k :: 0 <= k < |h| && (h[k].role == System || h[k].role == User) ==> now[k] == h[k]
    ensures forall k :: Tail(h) <= k < |h| ==> now[k] == h[k]
    ensures WellFormed(h) ==> WellFormed(now)
  {
    CutKeepsSkeleton(h, p, i);
    forall k | 0 <= k < |h| && (h[k].role == System || h[k].role == User) ensures now[k] == h[k] {
      if k < Tail(h) {
        UptoKeepsTasks(h[k], k in Newest(h), if k < i then p + 1 else p);
      }
    }
    if WellFormed(h) {
      SkeletonKeepsWellFormed(h, now);
    }
  }

  lemma {:induction false} UptoKeepsTasks(m: ChatMessage, isNewest: bool, n: nat)
    requires m.role == System || m.role == User
    ensures Upto(m, isNewest, n) == m
  {
    if n > 0 {
      UptoKeepsTasks(m, isNewest, n - 1);
    }
  }

  // ── Sizes ──

  lemma ShortenSize(text: string)
    requires |text| >= MIN_SHRINKABLE
    ensures |Shorten(text)| < |text|
    ensures |text| <= MAX_SIZE ==> |Shorten(text)| < MIN_SHRINKABLE
  {
    var head := TruncateUtf8Safe(text, KEEP_HEAD);
    var cut := |text| - |head|;
    assert |Shorten(text)| == |head| + 6 + |Decimal(cut)| + |ELIDED_TAIL|;
    assert |ELIDED_TAIL| <= 70;
    DecimalIsShort(cut);
    if |text| <= MAX_SIZE {
      DecimalOfSize(cut);
    }
  }

  /** A shortened text keeps its first 400 bytes, or as many as end a character, and says how many are gone. */
  lemma {:induction false} ShortenKeepsHead(text: string) returns (n: nat)
    requires |text| >= 600
    ensures 396 <= n <= 400 && Shorten(text) == text[..n] + "\n[" + ELLIPSIS + " " + Decimal(|text| - n) + ELIDED_TAIL
    ensures ValidUtf8(text) ==> ValidUtf8(text[..n]) && n + SequenceLength(text[n]) > 400
  {
    var head := TruncateUtf8Safe(text, 400);
    n := |head|;
    assert head == text[..n];
    if ValidUtf8(text) { TruncateKeepsUtf8(text, 400); }
  }

  /** What replaces an argument set says how large it was. */
  lemma StubSaysSize(n: nat)
    ensures |STUB_HEAD| + |Decimal(n)| <= |Stub(n)| && Stub(n)[|STUB_HEAD|..|STUB_HEAD| + |Decimal(n)|] == Decimal(n)
  {
  }

  lemma {:induction false} EscapesAtMostSixfold(s: string)
    ensures EscapedBytes(s) <= 6 * |s|
  {
    if s != [] {
      EscapesAtMostSixfold(s[..|s| - 1]);
    }
  }

  lemma StubSize(n: nat)
    requires n >= MIN_SHRINKABLE
    ensures EscapedBytes(Stub(n)) < n
    ensures |Stub(n)| < n
    ensures n <= MAX_SIZE ==> |Stub(n)| < MIN_SHRINKABLE
  {
    assert |Stub(n)| == |STUB_HEAD| + |Decimal(n)| + |STUB_TAIL| == 90 + |Decimal(n)|;
    DecimalIsShort(n);
    EscapesAtMostSixfold(Stub(n));
    if n <= MAX_SIZE {
      DecimalOfSize(n);
    }
  }

  lemma {:induction false} StubCallsAreLighter(calls: seq<CallRecord>)
    ensures DumpedCalls(StubCalls(calls)) <= DumpedCalls(calls)
  {
    if calls != [] {
      var n := |calls| - 1;
      StubCallsAreLighter(calls[..n]);
      assert StubCalls(calls)[..n] == StubCalls(calls[..n]);
      if |calls[n].arguments| >= MIN_SHRINKABLE {
        StubSize(|calls[n].arguments|);
      }
    }
  }

  /** Every pass makes a message lighter. */
  lemma ShrunkIsLighter(m: ChatMessage, isNewest: bool, p: nat)
    requires Shrinkable(m, isNewest, p)
    ensures NoHeavier(Shrunk(m, p), m)
  {
    hide Shorten;
    StubCallsAreLighter(m.calls);
    if |m.content| >= MIN_SHRINKABLE {
      ShortenSize(m.content);
    }
  }

  lemma {:induction false} UptoIsLighter(m: ChatMessage, isNewest: bool, n: nat)
    ensures NoHeavier(Upto(m, isNewest, n), m)
  {
    hide Shorten, Shrinkable;
    if n > 0 {
      UptoIsLighter(m, isNewest, n - 1);
      var before := Upto(m, isNewest, n - 1);
      if Shrinkable(before, isNewest, n - 1) {
        ShrunkIsLighter(before, isNewest, n - 1);
      }
    }
  }

  /** Without calls: a transcript is left alone exactly when a quarter of its bytes and 800 for each image fit. */
  lemma LeftAloneExactly(h: seq<ChatMessage>, budget: int, overhead: int, p: nat, i: nat,
                         now: seq<ChatMessage>, out: TrimOutcome)
    requires IsTrim(h, budget, overhead, p, i, now, out) && forall k :: 0 <= k < |h| ==> h[k].calls == []
    ensures out.before == ContentBytes(h) / 4 + 800 * ImageCount(h) + overhead
    ensures ContentBytes(h) / 4 + 800 * ImageCount(h) + overhead <= budget ==> now == h && out.fits && !out.Trimmed()
    ensures ContentBytes(h) / 4 + 800 * ImageCount(h) + overhead > budget ==> now != h || !out.fits
  {
    PlainEstimate(h);
    hide EstimateTokens, Upto, Newest;
    CutStart(h, budget, overhead);
    if ContentBytes(h) / 4 + 800 * ImageCount(h) + overhead <= budget {
      assert CutTokens(h, 0, 0) <= budget - overhead;
      assert p == 0 && i == 0;
    }
  }

  lemma NoHeavierItself(m: ChatMessage)
    ensures NoHeavier(m, m)
  {
  }

  /** `before` and `after` are the estimates on entry and on exit, and the second is never above the first. */
  lemma TrimNeverGrows(h: seq<ChatMessage>, budget: int, overhead: int, p: nat, i: nat,
                       now: seq<ChatMessage>, out: TrimOutcome)
    requires IsTrim(h, budget, overhead, p, i, now, out)
    ensures out.before == EstimateTokens(h) + overhead
    ensures out.after == EstimateTokens(now) + overhead <= out.before
    ensures out.fits <==> out.after <= budget
  {
    hide EstimateTokens, NoHeavier, Upto, Newest, Tail, NoneBefore, TakenAt;
    forall k | 0 <= k < |h| ensures NoHeavier(now[k], h[k]) {
      if k < Tail(h) {
        UptoIsLighter(h[k], k in Newest(h), if k < i then p + 1 else p);
      } else {
        NoHeavierItself(h[k]);
      }
    }
    LighterIsCheaper(now, h);
  }

  // ── Nothing is left behind ──

  /** Every string of the message is one a std::string can hold. */
  predicate Sized(m: ChatMessage) {
    && |m.content| <= MAX_SIZE
    && forall k :: 0 <= k < |m.calls| ==> |m.calls[k].arguments| <= MAX_SIZE
  }

  lemma StubbedCallsAreSmall(m: ChatMessage)
    requires Sized(m)
    ensures !HasLargeArguments(m.(calls := StubCalls(m.calls)))
    ensures Sized(m.(calls := StubCalls(m.calls)))
  {
    forall k | 0 <= k < |m.calls| ensures |StubCall(m.calls[k]).arguments| < MIN_SHRINKABLE {
      if |m.calls[k].arguments| >= MIN_SHRINKABLE {
        StubSize(|m.calls[k].arguments|);
      }
    }
  }

  /** A pass finishes its own work and does not reopen an earlier pass's. */
  lemma PassFinishes(m: ChatMessage, isNewest: bool, p: nat, q: nat)
    requires Sized(m) && Shrinkable(m, isNewest, p) && q <= p
    requires q < p ==> !Shrinkable(m, isNewest, q)
    ensures !Shrinkable(Shrunk(m, p), isNewest, q)
    ensures Sized(Shrunk(m, p))
  {
    hide Shorten;
    StubbedCallsAreSmall(m);
    if |m.content| >= MIN_SHRINKABLE {
      ShortenSize(m.content);
    }
  }

  /** After n passes none of the first n has anything left to take. */
  lemma {:induction false} UptoFinishes(m: ChatMessage, isNewest: bool, n: nat)
    requires Sized(m)
    ensures Sized(Upto(m, isNewest, n))
    ensures forall q: nat :: q < n ==> !Shrinkable(Upto(m, isNewest, n), isNewest, q)
  {
    hide Shrunk, Sized, Shrinkable;
    if n > 0 {
      UptoFinishes(m, isNewest, n - 1);
      var before := Upto(m, isNewest, n - 1);
      forall q: nat | q < n
        ensures Sized(Upto(m, isNewest, n)) && !Shrinkable(Upto(m, isNewest, n), isNewest, q)
      {
        if Shrinkable(before, isNewest, n - 1) {
          PassFinishes(before, isNewest, n - 1, q);
        }
      }
      assert Sized(Upto(m, isNewest, n)) by {
        if Shrinkable(before, isNewest, n - 1) {
          PassFinishes(before, isNewest, n - 1, n - 1);
        }
      }
    }
  }

  /** Pass q has nothing left to take from any unprotected message. */
  ghost predicate Exhausted(h: seq<ChatMessage>, now: seq<ChatMessage>, q: nat)
    requires |now| == |h|
  {
    forall k :: 0 <= k < Tail(h) ==> !Shrinkable(now[k], k in Newest(h), q)
  }

  /** At cut (p, i) every pass before p is exhausted. */
  lemma CutExhausts(h: seq<ChatMessage>, p: nat, i: nat, q: nat)
    requires (forall k :: 0 <= k < |h| ==> Sized(h[k])) && q < p
    ensures Exhausted(h, AtCut(h, p, i), q)
  {
    forall k | 0 <= k < Tail(h) ensures !Shrinkable(AtCut(h, p, i)[k], k in Newest(h), q) {
      UptoFinishes(h[k], k in Newest(h), if k < i then p + 1 else p);
    }
  }

  /** A trim that does not fit has taken everything it may take. */
  lemma UnfitMeansNothingLeft(h: seq<ChatMessage>, budget: int, overhead: int, p: nat, i: nat,
                              now: seq<ChatMessage>, out: TrimOutcome)
    requires IsTrim(h, budget, overhead, p, i, now, out) && !out.fits
    requires forall k :: 0 <= k < |h| ==> Sized(h[k])
    ensures forall q: nat :: q < PASSES ==> Exhausted(h, now, q)
  {
    forall q: nat | q < PASSES ensures Exhausted(h, now, q) {
      CutExhausts(h, p, i, q);
    }
  }

  /** In the fields: no image, no large result, no large argument set and no long prose before the protected tail. */
  lemma UnfitInFields(h: seq<ChatMessage>, budget: int, overhead: int, p: nat, i: nat,
                      now: seq<ChatMessage>, out: TrimOutcome, k: nat)
    requires IsTrim(h, budget, overhead, p, i, now, out) && !out.fits && k < Tail(h)
    requires forall j :: 0 <= j < |h| ==> Sized(h[j])
    ensures |now| == |h|
    ensures now[k].role != System && now[k].role != User ==> now[k].images == []
    ensures now[k].role == Tool || now[k].role == Assistant ==> |now[k].content| < 600
    ensures now[k].role == Assistant ==> forall c :: 0 <= c < |now[k].calls| ==> |now[k].calls[c].arguments| < 600
  {
    hide Shrinkable, IsTrim;
    UnfitMeansNothingLeft(h, budget, overhead, p, i, now, out);
    assert Exhausted(h, now, DROP_IMAGES) && Exhausted(h, now, NEWEST_RESULTS) && Exhausted(h, now, NEWEST_CALLS)
           && Exhausted(h, now, PROSE) by { TrimKeepsLength(h, budget, overhead, p, i, now, out); }
    NotShrinkable(now[k], k in Newest(h));
  }

  lemma TrimKeepsLength(h: seq<ChatMessage>, budget: int, overhead: int, p: nat, i: nat,
                        now: seq<ChatMessage>, out: TrimOutcome)
    requires IsTrim(h, budget, overhead, p, i, now, out)
    ensures |now| == |h|
  {
  }

  lemma NotShrinkable(m: ChatMessage, isNewest: bool)
    requires !Shrinkable(m, isNewest, DROP_IMAGES) && !Shrinkable(m, isNewest, NEWEST_RESULTS)
    requires !Shrinkable(m, isNewest, NEWEST_CALLS) && !Shrinkable(m, isNewest, PROSE)
    ensures m.role != System && m.role != User ==> m.images == []
    ensures m.role == Tool || m.role == Assistant ==> |m.content| < 600
    ensures m.role == Assistant ==> forall c :: 0 <= c < |m.calls| ==> |m.calls[c].arguments| < 600
  {
  }

  lemma {:induction false} NothingToTake(m: ChatMessage, isNewest: bool, n: nat)
    requires n <= PASSES && forall q: nat :: q < PASSES ==> !Shrinkable(m, isNewest, q)
    ensures Upto(m, isNewest, n) == m
  {
    if n > 0 {
      NothingToTake(m, isNewest, n - 1);
      assert !Shrinkable(m, isNewest, n - 1);
    }
  }

  lemma {:induction false} NothingTallied(h: seq<ChatMessage>, q: nat, n: nat)
    requires n <= Tail(h) && q < PASSES
    requires forall q: nat :: q < PASSES ==> Exhausted(h, h, q)
    ensures Tally(h, q, n) == 0
  {
    if n > 0 {
      NothingTallied(h, q, n - 1);
      NothingToTakeAt(h, n - 1);
      NothingToTake(h[n - 1], n - 1 in Newest(h), q);
    }
  }

  lemma NothingToTakeAt(h: seq<ChatMessage>, k: nat)
    requires k < Tail(h)
    requires forall q: nat :: q < PASSES ==> Exhausted(h, h, q)
    ensures forall q: nat :: q < PASSES ==> !Shrinkable(h[k], k in Newest(h), q)
  {
    forall q: nat | q < PASSES ensures !Shrinkable(h[k], k in Newest(h), q) {
      assert Exhausted(h, h, q);
    }
  }

  lemma NothingToCut(h: seq<ChatMessage>, p: nat, i: nat)
    requires p < PASSES || (p == PASSES && i == 0)
    requires forall q: nat :: q < PASSES ==> Exhausted(h, h, q)
    ensures AtCut(h, p, i) == h
  {
    forall k | 0 <= k < Tail(h) ensures AtCut(h, p, i)[k] == h[k] {
      NothingToTakeAt(h, k);
      NothingToTake(h[k], k in Newest(h), if k < i then p + 1 else p);
    }
  }

  /** Trimming a trimmed transcript to the same budget changes nothing and counts nothing. */
  lemma TrimIsIdempotent(h: seq<ChatMessage>, budget: int, overhead: int,
                         p: nat, i: nat, now: seq<ChatMessage>, out: TrimOutcome,
                         p2: nat, i2: nat, again: seq<ChatMessage>, out2: TrimOutcome)
    requires forall k :: 0 <= k < |h| ==> Sized(h[k])
    requires IsTrim(h, budget, overhead, p, i, now, out)
    requires IsTrim(now, budget, overhead, p2, i2, again, out2)
    ensures again == now && !out2.Trimmed() && out2.after == out.after && out2.fits == out.fits
  {
    if out.fits {
      CutStart(now, budget, overhead);
      assert CutTokens(now, 0, 0) == EstimateTokens(now);
      assert p2 == 0 && i2 == 0;
    } else {
      UnfitMeansNothingLeft(h, budget, overhead, p, i, now, out);
      CutKeepsSkeleton(h, p, i);
      SameSkeletonSameNewest(h, now);
      SameRolesSameTail(h, now);
      forall q: nat | q < PASSES ensures Exhausted(now, now, q) {
        assert Exhausted(h, now, q);
      }
      NothingToCut(now, p2, i2);
      forall q: nat | q < PASSES ensures TakenAt(now, q, p2, i2) == 0 {
        NothingTallied(now, q, Tail(now));
        NothingTallied(now, q, i2);
      }
    }
  }

  lemma {:induction false} SameRolesSameTail(a: seq<ChatMessage>, b: seq<ChatMessage>)
    requires |a| == |b| && forall k :: 0 <= k < |a| ==> SameSkeleton(a[k], b[k])
    ensures Tail(a) == Tail(b)
  {
    if a != [] {
      assert SameSkeleton(a[|a| - 1], b[|b| - 1]);
      SameRolesSameTail(a[..|a| - 1], b[..|b| - 1]);
    }
  }

  // ── Priorities ──

  /** The newest result and the newest calls of a tool outlast the first three passes untouched. */
  lemma NewestSurvives(m: ChatMessage, n: nat)
    requires n <= NEWEST_RESULTS
    ensures Upto(m, true, n).content == m.content && Upto(m, true, n).calls == m.calls
  {
    if n > 0 {
      NewestSurvives(m, n - 1);
    }
  }

  /**
   The newest result or call of a tool is shortened only once every unprotected
   image outside system and user messages is gone and every other unprotected
   result and argument set is below the threshold.
   */
  lemma NewestGoesLast(h: seq<ChatMessage>, budget: int, overhead: int, p: nat, i: nat,
                       now: seq<ChatMessage>, out: TrimOutcome, k: nat)
    requires IsTrim(h, budget, overhead, p, i, now, out)
    requires forall k :: 0 <= k < |h| ==> Sized(h[k])
    requires k < |h| && IsNewest(h, k) && (now[k].content != h[k].content || now[k].calls != h[k].calls)
    ensures forall j :: 0 <= j < Tail(h) && h[j].role != System && h[j].role != User ==> now[j].images == []
    ensures forall j :: 0 <= j < Tail(h) && !IsNewest(h, j) && h[j].role == Tool ==> |now[j].content| < MIN_SHRINKABLE
    ensures forall j :: 0 <= j < Tail(h) && !IsNewest(h, j) && h[j].role == Assistant ==> !HasLargeArguments(now[j])
  {
    hide AtCut, FirstFit, OutcomeAt, Newest;
    TakenLate(h, p, i, k);
    CutKeepsSkeleton(h, p, i);
    CutExhausts(h, p, i, DROP_IMAGES);
    CutExhausts(h, p, i, OLD_RESULTS);
    CutExhausts(h, p, i, OLD_CALLS);
    MemberOfNewest(h);
  }

  lemma MemberOfNewest(h: seq<ChatMessage>)
    ensures forall k: nat :: k < |h| ==> (k in Newest(h) <==> IsNewest(h, k))
  {
  }

  /** A newest result or call that has been touched dates the cut. */
  lemma TakenLate(h: seq<ChatMessage>, p: nat, i: nat, k: nat)
    requires k < |h| && IsNewest(h, k)
    requires var m := AtCut(h, p, i)[k]; m.content != h[k].content || m.calls != h[k].calls
    ensures p >= NEWEST_RESULTS
  {
    if p < NEWEST_RESULTS {
      NewestSurvives(h[k], if k < i then p + 1 else p);
    }
  }

  lemma ProseSurvives(m: ChatMessage, isNewest: bool, n: nat)
    requires n <= PROSE && m.role == Assistant
    ensures Upto(m, isNewest, n).content == m.content
  {
    UptoKeepsSkeleton(m, isNewest, n);
    if n > 0 {
      UptoKeepsSkeleton(m, isNewest, n - 1);
      ProseSurvives(m, isNewest, n - 1);
    }
  }

  /** Assistant prose is shortened only when no result and no argument set is left to take. */
  lemma ProseGoesLast(h: seq<ChatMessage>, budget: int, overhead: int, p: nat, i: nat,
                      now: seq<ChatMessage>, out: TrimOutcome, k: nat)
    requires IsTrim(h, budget, overhead, p, i, now, out)
    requires forall k :: 0 <= k < |h| ==> Sized(h[k])
    requires k < |h| && h[k].role == Assistant && now[k].content != h[k].content
    ensures forall j :: 0 <= j < Tail(h) && h[j].role == Tool ==> |now[j].content| < MIN_SHRINKABLE
    ensures forall j :: 0 <= j < Tail(h) && h[j].role == Assistant ==> !HasLargeArguments(now[j])
  {
    hide AtCut, FirstFit, OutcomeAt, Newest, IsNewest;
    ProseTakenLast(h, p, i, k);
    CutKeepsSkeleton(h, p, i);
    CutExhausts(h, p, i, NEWEST_RESULTS);
    CutExhausts(h, p, i, NEWEST_CALLS);
  }

  lemma ProseTakenLast(h: seq<ChatMessage>, p: nat, i: nat, k: nat)
    requires k < |h| && h[k].role == Assistant && AtCut(h, p, i)[k].content != h[k].content
    ensures p >= PROSE
  {
    if p < PROSE {
      ProseSurvives(h[k], k in Newest(h), if k < i then p + 1 else p);
    }
  }

  // ── Oldest first ──

  /** The first pass that may shorten m's result, its arguments, or its prose. */
  function ContentPass(m: ChatMessage, isNewest: bool): nat {
    if m.role == Tool then (if isNewest then NEWEST_RESULTS else OLD_RESULTS)
    else if m.role == Assistant then PROSE
    else PASSES
  }

  function CallsPass(m: ChatMessage, isNewest: bool): nat {
    if m.role != Assistant then PASSES else if isNewest then NEWEST_CALLS else OLD_CALLS
  }

  /** A message shows whether its pass has run: below the threshold never, above it always. */
  lemma UptoTells(m: ChatMessage, isNewest: bool, n: nat)
    requires n <= PASSES
    ensures var r := Upto(m, isNewest, n);
            && r.images == (if n > 0 && m.role != System && m.role != User then [] else m.images)
            && (n <= ContentPass(m, isNewest) ==> r.content == m.content)
            && (n > ContentPass(m, isNewest) && |m.content| >= MIN_SHRINKABLE ==> |r.content| < |m.content|)
            && (|m.content| < MIN_SHRINKABLE ==> r.content == m.content)
  {
    hide Shorten;
    UptoKeepsSkeleton(m, isNewest, n);
    if n > 0 {
      UptoKeepsSkeleton(m, isNewest, n - 1);
      UptoTells(m, isNewest, n - 1);
      var before := Upto(m, isNewest, n - 1);
      if |before.content| >= MIN_SHRINKABLE {
        ShortenSize(before.content);
      }
    }
  }

  /** Contents are shortened at most once, and only when large; so are argument sets. */
  lemma {:induction false} UptoOnce(m: ChatMessage, isNewest: bool, n: nat)
    requires n <= PASSES && Sized(m)
    ensures var r := Upto(m, isNewest, n);
      && (r.content == m.content
          || ((m.role == Tool || m.role == Assistant) && |m.content| >= 600 && r.content == Shorten(m.content)))
      && |r.calls| == |m.calls|
      && (forall c :: 0 <= c < |m.calls| ==>
            || r.calls[c] == m.calls[c]
            || (m.role == Assistant && |m.calls[c].arguments| >= 600
                && r.calls[c] == m.calls[c].(arguments := Stub(|m.calls[c].arguments|))))
  {
    hide Shorten, Stub;
    UptoKeepsSkeleton(m, isNewest, n);
    if n > 0 {
      UptoKeepsSkeleton(m, isNewest, n - 1);
      UptoOnce(m, isNewest, n - 1);
      var before := Upto(m, isNewest, n - 1);
      if |m.content| >= 600 { ShortenSize(m.content); }
      forall c | 0 <= c < |m.calls| && |m.calls[c].arguments| >= 600 ensures |Stub(|m.calls[c].arguments|)| < 600 {
        StubSize(|m.calls[c].arguments|);
      }
    }
  }

  /** Whatever a trim changed was large and lay before the protected tail, and became its shortened form or its stub. */
  lemma TouchedWasLarge(h: seq<ChatMessage>, budget: int, overhead: int, p: nat, i: nat,
                        now: seq<ChatMessage>, out: TrimOutcome, k: nat)
    requires IsTrim(h, budget, overhead, p, i, now, out) && k < |h| && Sized(h[k])
    ensures |now| == |h| && |now[k].calls| == |h[k].calls|
    ensures now[k].content != h[k].content ==>
      && k < Tail(h) && (h[k].role == Tool || h[k].role == Assistant) && |h[k].content| >= 600
      && now[k].content == Shorten(h[k].content)
    ensures forall c :: 0 <= c < |h[k].calls| && now[k].calls[c] != h[k].calls[c] ==>
      && k < Tail(h) && h[k].role == Assistant && |h[k].calls[c].arguments| >= 600
      && now[k].calls[c] == h[k].calls[c].(arguments := Stub(|h[k].calls[c].arguments|))
  {
    hide Upto, Shorten, Stub, Sized;
    if k < Tail(h) { UptoOnce(h[k], k in Newest(h), if k < i then p + 1 else p); }
  }

  lemma UptoTellsCalls(m: ChatMessage, isNewest: bool, n: nat, c: nat)
    requires n <= PASSES && c < |m.calls|
    ensures |Upto(m, isNewest, n).calls| == |m.calls|
    ensures var args := Upto(m, isNewest, n).calls[c].arguments;
            && (n <= CallsPass(m, isNewest) || |m.calls[c].arguments| < MIN_SHRINKABLE ==>
                  args == m.calls[c].arguments)
            && (n > CallsPass(m, isNewest) && |m.calls[c].arguments| >= MIN_SHRINKABLE ==>
                  |args| < |m.calls[c].arguments|)
  {
    hide Shorten, Stub;
    UptoKeepsSkeleton(m, isNewest, n);
    if n > 0 {
      UptoKeepsSkeleton(m, isNewest, n - 1);
      UptoTellsCalls(m, isNewest, n - 1, c);
      var before := Upto(m, isNewest, n - 1).calls[c].arguments;
      if |before| >= MIN_SHRINKABLE {
        StubSize(|before|);
      }
    }
  }

  /**
   Within a pass the messages taken are an oldest-first prefix of the eligible
   ones: of two messages a pass treats alike, the newer is never touched while
   the older is spared.
   */
  lemma OldestGoesFirst(h: seq<ChatMessage>, budget: int, overhead: int, p: nat, i: nat,
                        now: seq<ChatMessage>, out: TrimOutcome, j: nat, k: nat)
    requires IsTrim(h, budget, overhead, p, i, now, out)
    requires j < k < |h| && h[j].role == h[k].role && (IsNewest(h, j) <==> IsNewest(h, k))
    ensures h[j].images != [] && now[k].images != h[k].images ==> now[j].images != h[j].images
    ensures |h[j].content| >= MIN_SHRINKABLE && now[k].content != h[k].content ==> now[j].content != h[j].content
    ensures |now| == |h| && |now[j].calls| == |h[j].calls| && |now[k].calls| == |h[k].calls|
    ensures forall c, d :: 0 <= c < |h[j].calls| && 0 <= d < |h[k].calls| ==>
      |h[j].calls[c].arguments| >= MIN_SHRINKABLE && now[k].calls[d] != h[k].calls[d] ==>
        now[j].calls[c] != h[j].calls[c]
  {
    hide Upto, IsNewest, NoneBefore, OutcomeAt;
    CutKeepsSkeleton(h, p, i);
    if k < Tail(h) {
      var n, o := if j < i then p + 1 else p, if k < i then p + 1 else p;
      UptoTells(h[j], j in Newest(h), n);
      UptoTells(h[k], k in Newest(h), o);
      UptoKeepsSkeleton(h[k], k in Newest(h), o);
      forall c, d | 0 <= c < |h[j].calls| && 0 <= d < |h[k].calls| &&
                    |h[j].calls[c].arguments| >= MIN_SHRINKABLE && now[k].calls[d] != h[k].calls[d]
        ensures now[j].calls[c] != h[j].calls[c]
      {
        UptoTellsCalls(h[j], j in Newest(h), n, c);
        UptoTellsCalls(h[k], k in Newest(h), o, d);
      }
    }
  }
}
