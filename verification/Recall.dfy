/**
 Ranked recall: direct hits from the vector index or by keyword, widened by one
 hop of links and then by term matches, sorted and cut to k.

 What SQLite answers to each query is taken as a list that the query's
 conditions determine up to order; scores are exact reals.
 */
module Recall {
  import opened Wrappers
  import opened MemoryTables

  datatype Hit = Hit(id: int, score: real)

  const LINK_DECAY: real := 0.6
  const FTS_CEILING: real := 0.9
  const FTS_ALONE: real := 0.5

  function SourceWeight(source: string): (w: real)
    ensures w > 0.0
  {
    if source == "tool" || source == "user" then 1.3
    else if source == "consolidated" then 1.15
    else 1.0
  }

  function Ids(hits: seq<Hit>): (ids: seq<int>)
    ensures |ids| == |hits| && forall k :: 0 <= k < |hits| ==> ids[k] == hits[k].id
  {
    seq(|hits|, k requires 0 <= k < |hits| => hits[k].id)
  }

  predicate Distinct(hits: seq<Hit>) {
    forall i, j :: 0 <= i < j < |hits| ==> hits[i].id != hits[j].id
  }

  /** The caller's own, and the agent's when one is named. */
  predicate Mine(t: Tables, user: int, agent: string, id: int) {
    id in t.memories && !Outside(t.memories[id], user, agent)
  }

  predicate AllMine(t: Tables, user: int, agent: string, hits: seq<Hit>) {
    forall k :: 0 <= k < |hits| ==> Mine(t, user, agent, hits[k].id)
  }

  predicate AllPositive(hits: seq<Hit>) {
    forall k :: 0 <= k < |hits| ==> hits[k].score > 0.0
  }

  predicate Descending(hits: seq<Hit>) {
    forall i, j :: 0 <= i < j < |hits| ==> hits[i].score >= hits[j].score
  }

  // ── Stable sorting ──

  /** After the last hit that scores at least as much. */
  function InsertDesc(sorted: seq<Hit>, h: Hit): seq<Hit> {
    if sorted != [] && sorted[|sorted| - 1].score < h.score
    then InsertDesc(sorted[..|sorted| - 1], h) + [sorted[|sorted| - 1]]
    else sorted + [h]
  }

  function SortDesc(hits: seq<Hit>): seq<Hit> {
    if hits == [] then [] else InsertDesc(SortDesc(hits[..|hits| - 1]), hits[|hits| - 1])
  }

  /** The hits of one score, in order. */
  function Scoring(hits: seq<Hit>, score: real): seq<Hit> {
    if hits == [] then []
    else
      var before, last := Scoring(hits[..|hits| - 1], score), hits[|hits| - 1];
      if last.score == score then before + [last] else before
  }

  lemma {:induction false} InsertDescKeeps(sorted: seq<Hit>, h: Hit)
    ensures multiset(InsertDesc(sorted, h)) == multiset(sorted) + multiset{h}
    ensures |InsertDesc(sorted, h)| == |sorted| + 1
  {
    if sorted != [] && sorted[|sorted| - 1].score < h.score {
      var init, last := sorted[..|sorted| - 1], sorted[|sorted| - 1];
      assert sorted == init + [last];
      InsertDescKeeps(init, h);
    }
  }

  lemma {:induction false} InsertDescSorts(sorted: seq<Hit>, h: Hit)
    requires Descending(sorted)
    ensures Descending(InsertDesc(sorted, h))
    ensures forall x :: x in InsertDesc(sorted, h) <==> x in sorted || x == h
  {
    if sorted != [] && sorted[|sorted| - 1].score < h.score {
      var init, last := sorted[..|sorted| - 1], sorted[|sorted| - 1];
      InsertDescSorts(init, h);
      assert sorted == init + [last];
      var r := InsertDesc(init, h);
      forall k | 0 <= k < |r| ensures r[k].score >= last.score {
        assert r[k] in r;
      }
    }
  }

  lemma {:induction false} SortDescSorts(hits: seq<Hit>)
    ensures Descending(SortDesc(hits)) && multiset(SortDesc(hits)) == multiset(hits)
    ensures |SortDesc(hits)| == |hits| && forall x :: x in SortDesc(hits) <==> x in hits
  {
    if hits != [] {
      SortDescSorts(hits[..|hits| - 1]);
      assert hits == hits[..|hits| - 1] + [hits[|hits| - 1]];
      InsertDescSorts(SortDesc(hits[..|hits| - 1]), hits[|hits| - 1]);
      InsertDescKeeps(SortDesc(hits[..|hits| - 1]), hits[|hits| - 1]);
    }
  }

  lemma {:induction false} ScoringAppend(a: seq<Hit>, h: Hit, score: real)
    ensures Scoring(a + [h], score) == if h.score == score then Scoring(a, score) + [h] else Scoring(a, score)
  {
    assert (a + [h])[..|a|] == a;
  }

  lemma {:induction false} InsertDescIsStable(sorted: seq<Hit>, h: Hit, score: real)
    requires Descending(sorted)
    ensures Scoring(InsertDesc(sorted, h), score) == Scoring(sorted + [h], score)
  {
    ScoringAppend(sorted, h, score);
    if sorted != [] && sorted[|sorted| - 1].score < h.score {
      var init, last := sorted[..|sorted| - 1], sorted[|sorted| - 1];
      assert sorted == init + [last];
      InsertDescIsStable(init, h, score);
      ScoringAppend(init, h, score);
      ScoringAppend(init, last, score);
      ScoringAppend(InsertDesc(init, h), last, score);
    }
  }

  /** Hits of equal score keep their order. */
  lemma {:induction false} SortDescIsStable(hits: seq<Hit>, score: real)
    ensures Scoring(SortDesc(hits), score) == Scoring(hits, score)
  {
    if hits != [] {
      var init, last := hits[..|hits| - 1], hits[|hits| - 1];
      assert hits == init + [last];
      SortDescIsStable(init, score);
      SortDescSorts(init);
      InsertDescIsStable(SortDesc(init), last, score);
      ScoringAppend(SortDesc(init), last, score);
      ScoringAppend(init, last, score);
    }
  }

  lemma {:induction false} FirstScoring(hits: seq<Hit>, score: real, i: nat)
    requires i < |hits| && hits[i].score == score && forall j :: 0 <= j < i ==> hits[j].score != score
    ensures Scoring(hits, score) != [] && Scoring(hits, score)[0] == hits[i]
  {
    var init := hits[..|hits| - 1];
    if i == |hits| - 1 {
      NoneScoring(init, score);
    } else {
      FirstScoring(init, score, i);
    }
  }

  lemma {:induction false} NoneScoring(hits: seq<Hit>, score: real)
    requires forall j :: 0 <= j < |hits| ==> hits[j].score != score
    ensures Scoring(hits, score) == []
  {
    if hits != [] { NoneScoring(hits[..|hits| - 1], score); }
  }

  /** i is the first hit of the highest score. */
  predicate IsBest(hits: seq<Hit>, i: nat) {
    && i < |hits|
    && (forall j :: 0 <= j < |hits| ==> hits[j].score <= hits[i].score)
    && (forall j :: 0 <= j < i ==> hits[j].score < hits[i].score)
  }

  /** Sorting puts the best hit first. */
  lemma BestComesFirst(hits: seq<Hit>, i: nat)
    requires IsBest(hits, i)
    ensures SortDesc(hits) != [] && SortDesc(hits)[0] == hits[i]
  {
    var sorted, score := SortDesc(hits), hits[i].score;
    SortDescSorts(hits);
    SortDescIsStable(hits, score);
    assert hits[i] in sorted;
    assert sorted[0] in hits;
    FirstScoring(hits, score, i);
    FirstScoring(sorted, score, 0);
  }

  lemma {:induction false} InsertDescDistinct(sorted: seq<Hit>, h: Hit)
    requires Distinct(sorted) && Descending(sorted) && forall x :: x in sorted ==> x.id != h.id
    ensures Distinct(InsertDesc(sorted, h))
  {
    if sorted != [] && sorted[|sorted| - 1].score < h.score {
      var init, last := sorted[..|sorted| - 1], sorted[|sorted| - 1];
      InsertDescDistinct(init, h);
      InsertDescSorts(init, h);
      var r := InsertDesc(init, h);
      forall k | 0 <= k < |r| ensures r[k].id != last.id {
        assert r[k] in r;
      }
    }
  }

  lemma {:induction false} SortDescDistinct(hits: seq<Hit>)
    requires Distinct(hits)
    ensures Distinct(SortDesc(hits))
  {
    if hits != [] {
      var init := hits[..|hits| - 1];
      SortDescDistinct(init);
      SortDescSorts(init);
      InsertDescDistinct(SortDesc(init), hits[|hits| - 1]);
    }
  }

  // ── Links ──

  predicate Touches(k: LinkKey, id: int) { k.lo == id || k.hi == id }

  function OtherEnd(k: LinkKey, id: int): int { if k.lo == id then k.hi else k.lo }

  /** An answer to the query for a memory's links: all of those to the caller's memories, heaviest first. */
  ghost predicate IsLinkRows(t: Tables, user: int, id: int, rows: seq<LinkKey>) {
    && (forall k :: k in rows <==> k in t.links && Touches(k, id) && Owned(t, user, OtherEnd(k, id)))
    && forall i, j :: 0 <= i < j < |rows| && rows[i] in t.links && rows[j] in t.links ==>
      t.links[rows[i]] >= t.links[rows[j]]
  }

  function Times(a: real, b: real): real { a * b }

  function LinkScore(anchor: real, weight: real): real { Times(anchor, weight) * LINK_DECAY }

  /** An inherited score is below its anchor's exactly when the anchor's is above zero. */
  lemma {:induction false} LinkScoreBelow(anchor: real, weight: real)
    requires 0.0 < weight <= 1.0
    ensures LinkScore(anchor, weight) < anchor <==> anchor > 0.0
    ensures LinkScore(anchor, weight) > 0.0 <==> anchor > 0.0
  {
    hide Times;
    if anchor > 0.0 {
      Shrinks(anchor, weight);
    } else {
      Shrinks(-anchor, weight);
      Negates(anchor, weight);
    }
  }

  lemma Shrinks(a: real, weight: real)
    requires a >= 0.0 && 0.0 < weight <= 1.0
    ensures 0.0 <= Times(a, weight) <= a && (a > 0.0 ==> Times(a, weight) > 0.0)
  {
    assert a * (1.0 - weight) >= 0.0;
  }

  lemma Negates(a: real, weight: real)
    ensures Times(-a, weight) == -Times(a, weight)
  {
  }

  /** h was reached over a link of the anchor's. */
  ghost predicate FromAnchor(t: Tables, anchor: Hit, h: Hit) {
    exists k :: k in t.links && Touches(k, anchor.id) && OtherEnd(k, anchor.id) == h.id
      && h.score == LinkScore(anchor.score, t.links[k])
  }

  ghost predicate FromSome(t: Tables, anchors: seq<Hit>, h: Hit) {
    exists i :: 0 <= i < |anchors| && FromAnchor(t, anchors[i], h)
  }

  ghost predicate AllFound(t: Tables, user: int, agent: string, anchor: int, present: set<int>) {
    forall k :: k in t.links && Touches(k, anchor) && Mine(t, user, agent, OtherEnd(k, anchor)) ==>
      OtherEnd(k, anchor) in present
  }

  function IdSet(hits: seq<Hit>): set<int> { set h | h in hits :: h.id }

  method ExpandAnchor(t: Tables, user: int, agent: string, anchor: Hit, rows: seq<LinkKey>, before: set<int>)
    returns (found: seq<Hit>, present: set<int>)
    requires IsLinkRows(t, user, anchor.id, rows)
    ensures Distinct(found) && AllMine(t, user, agent, found)
    ensures present == before + IdSet(found) && IdSet(found) !! before
    ensures forall k :: 0 <= k < |found| ==> FromAnchor(t, anchor, found[k])
    ensures AllFound(t, user, agent, anchor.id, present)
  {
    hide LinkScore;
    found, present := [], before;
    for j := 0 to |rows|
      invariant Distinct(found) && AllMine(t, user, agent, found)
      invariant present == before + IdSet(found) && IdSet(found) !! before
      invariant forall k :: 0 <= k < |found| ==> FromAnchor(t, anchor, found[k])
      invariant forall i :: 0 <= i < j && Mine(t, user, agent, OtherEnd(rows[i], anchor.id)) ==>
        OtherEnd(rows[i], anchor.id) in present
    {
      assert rows[j] in rows;
      var id := OtherEnd(rows[j], anchor.id);
      if agent != "" && t.memories[id].agent != agent { continue; }
      if id in present { continue; }
      var h := Hit(id, LinkScore(anchor.score, t.links[rows[j]]));
      assert FromAnchor(t, anchor, h);
      present := present + {id};
      NewHit(found, h);
      found := found + [h];
    }
    forall k | k in t.links && Touches(k, anchor.id) && Mine(t, user, agent, OtherEnd(k, anchor.id))
      ensures OtherEnd(k, anchor.id) in present
    {
      assert k in rows;
      var i :| 0 <= i < |rows| && rows[i] == k;
    }
  }

  lemma NewHit(hits: seq<Hit>, h: Hit)
    ensures IdSet(hits + [h]) == IdSet(hits) + {h.id}
    ensures h.id !in IdSet(hits) && Distinct(hits) ==> Distinct(hits + [h])
  {
    assert forall x :: x in hits + [h] <==> x in hits || x == h;
    assert h in hits + [h];
    forall x | x in hits ensures x.id in IdSet(hits) {
    }
    forall id | id in IdSet(hits) + {h.id} ensures id in IdSet(hits + [h]) {
      if id in IdSet(hits) {
        var x :| x in hits && x.id == id;
        assert x in hits + [h];
      }
    }
    if h.id !in IdSet(hits) {
      forall i | 0 <= i < |hits| ensures hits[i].id != h.id {
        assert hits[i] in hits;
      }
    }
  }

  lemma {:induction false} IdSetAppend(a: seq<Hit>, b: seq<Hit>)
    ensures IdSet(a + b) == IdSet(a) + IdSet(b)
    ensures Distinct(a) && Distinct(b) && IdSet(a) !! IdSet(b) ==> Distinct(a + b)
  {
    if b == [] {
      assert a + b == a;
    } else {
      var init, last := b[..|b| - 1], b[|b| - 1];
      assert b == init + [last] && a + b == (a + init) + [last];
      IdSetAppend(a, init);
      NewHit(init, last);
      NewHit(a + init, last);
      if Distinct(b) {
        forall x | x in init ensures x.id != last.id {
          var i :| 0 <= i < |init| && init[i] == x;
          assert b[i] == x;
        }
        assert last.id !in IdSet(init);
      }
    }
  }

  /** What an inherited and a term score are, in figures. */
  lemma ScoresInFigures(anchor: real, weight: real, hits: seq<Hit>, rank: nat)
    ensures LinkScore(anchor, weight) == anchor * weight * 0.6
    ensures TermScore(Base(hits), rank) ==
      (if hits == [] then 0.5 else FloorScore(hits) * 0.9) * (1.0 - 0.01 * rank as real)
  {
  }

  lemma SourceWeights(source: string)
    ensures SourceWeight(source) ==
      if source in {"user", "tool"} then 1.3 else if source == "consolidated" then 1.15 else 1.0
  {
  }

  /**
   The memories directly linked to the hits, each listed once; the hits
   themselves stay as they are. It goes through the first n anchors, all of
   them unless k were found: `early` of the memories before the last one.
   */
  method ExpandLinks(t: Tables, user: int, agent: string, hits: seq<Hit>, k: int, rows: int -> seq<LinkKey>)
    returns (found: seq<Hit>, ghost n: nat, ghost early: nat)
    requires Distinct(hits) && forall id :: IsLinkRows(t, user, id, rows(id))
    ensures Distinct(hits + found) && AllMine(t, user, agent, found)
    ensures n <= |hits| && (|found| < k ==> n == |hits|)
    ensures forall i :: 0 <= i < n ==> AllFound(t, user, agent, hits[i].id, IdSet(hits) + IdSet(found))
    ensures forall j :: 0 <= j < |found| ==> FromSome(t, hits[..n], found[j])
    ensures n > 0 ==> early <= |found| && (n == 1 || early < k)
                      && forall j :: early <= j < |found| ==> FromAnchor(t, hits[n - 1], found[j])
    ensures n == 1 ==> early == 0
  {
    hide Touches, OtherEnd, IsLinkRows, FromAnchor, Mine, IdSet, Distinct, AllFound, FromSome;
    found, n, early := [], 0, 0;
    var present := IdSet(hits);
    IdSetAppend(hits, []);
    assert hits + [] == hits;
    NothingDistinct();
    for i := 0 to |hits|
      invariant n == i && (i > 1 ==> early < k) && (i > 0 ==> early <= |found| < k) && (i == 1 ==> early == 0)
        invariant i == 0 ==> found == []
      invariant Distinct(found) && AllMine(t, user, agent, found)
      invariant present == IdSet(hits) + IdSet(found) && IdSet(hits) !! IdSet(found)
      invariant forall j :: 0 <= j < |found| ==> FromSome(t, hits[..i], found[j])
      invariant i > 0 ==> forall j :: early <= j < |found| ==> FromAnchor(t, hits[i - 1], found[j])
      invariant forall a :: 0 <= a < i ==> AllFound(t, user, agent, hits[a].id, present)
    {
      ghost var earlier, before := found, present;
      var more: seq<Hit>;
      more, present := ExpandAnchor(t, user, agent, hits[i], rows(hits[i].id), present);
      forall a | 0 <= a < i ensures AllFound(t, user, agent, hits[a].id, present) {
        StillFound(t, user, agent, hits[a].id, before, present);
      }
      IdSetAppend(found, more);
      found, early, n := found + more, |found|, i + 1;
      forall j | 0 <= j < |found| ensures FromSome(t, hits[..i + 1], found[j]) {
        if j < |earlier| {
          FromMore(t, hits, i, earlier[j]);
        } else {
          FromLast(t, hits, i, more[j - |earlier|]);
        }
      }
      assert present == IdSet(hits) + IdSet(found);
      assert forall a :: 0 <= a < n ==> AllFound(t, user, agent, hits[a].id, present);
      if |found| >= k { break; }
    }
    IdSetAppend(hits, found);
  }

  lemma FromMore(t: Tables, hits: seq<Hit>, i: nat, h: Hit)
    requires i < |hits| && FromSome(t, hits[..i], h)
    ensures FromSome(t, hits[..i + 1], h)
  {
    hide FromAnchor;
    var a :| 0 <= a < i && FromAnchor(t, hits[..i][a], h);
    assert hits[..i + 1][a] == hits[..i][a];
  }

  lemma FromLast(t: Tables, hits: seq<Hit>, i: nat, h: Hit)
    requires i < |hits| && FromAnchor(t, hits[i], h)
    ensures FromSome(t, hits[..i + 1], h)
  {
    hide FromAnchor;
    assert hits[..i + 1][i] == hits[i];
  }

  lemma FromAny(t: Tables, hits: seq<Hit>, n: nat, h: Hit)
    requires n <= |hits| && FromSome(t, hits[..n], h)
    ensures FromSome(t, hits, h)
  {
    hide FromAnchor;
    var a :| 0 <= a < n && FromAnchor(t, hits[..n][a], h);
    assert hits[a] == hits[..n][a];
  }

  lemma NothingDistinct()
    ensures Distinct([]) && IdSet([]) == {}
  {
  }

  lemma StillFound(t: Tables, user: int, agent: string, anchor: int, a: set<int>, b: set<int>)
    requires AllFound(t, user, agent, anchor, a) && a <= b
    ensures AllFound(t, user, agent, anchor, b)
  {
  }

  // ── Terms ──

  /** An answer to the term query: the caller's own, each once, at most four times k of them. */
  ghost predicate IsTermRows(t: Tables, user: int, agent: string, k: int, rows: seq<int>) {
    && (forall j :: 0 <= j < |rows| ==> Mine(t, user, agent, rows[j]))
    && (forall i, j :: 0 <= i < j < |rows| ==> rows[i] != rows[j])
    && |rows| <= 4 * k
  }

  /** The running floor: the lowest score so far, a zero being taken for "none yet". */
  function FloorScore(hits: seq<Hit>): real {
    if hits == [] then 0.0
    else
      var floor, last := FloorScore(hits[..|hits| - 1]), hits[|hits| - 1].score;
      if floor == 0.0 || last < floor then last else floor
  }

  lemma {:induction false} FloorIsLowest(hits: seq<Hit>)
    requires AllPositive(hits) && hits != []
    ensures FloorScore(hits) > 0.0 && forall k :: 0 <= k < |hits| ==> FloorScore(hits) <= hits[k].score
  {
    if |hits| > 1 { FloorIsLowest(hits[..|hits| - 1]); }
  }

  function Base(hits: seq<Hit>): real { if hits == [] then FTS_ALONE else FloorScore(hits) * FTS_CEILING }

  function TermScore(base: real, rank: nat): real { base * (1.0 - 0.01 * rank as real) }

  lemma TermScoresFall(base: real, a: nat, b: nat)
    requires base > 0.0 && a < b
    ensures TermScore(base, b) < TermScore(base, a) <= base
  {
    assert 1.0 - 0.01 * b as real < 1.0 - 0.01 * a as real <= 1.0;
  }

  /** The rows not among the hits, in order. */
  function Fresh(rows: seq<int>, present: set<int>): seq<int> {
    if rows == [] then []
    else
      var before, last := Fresh(rows[..|rows| - 1], present), rows[|rows| - 1];
      if last in present then before else before + [last]
  }

  lemma {:induction false} FreshIsFresh(rows: seq<int>, present: set<int>)
    requires forall i, j :: 0 <= i < j < |rows| ==> rows[i] != rows[j]
    ensures forall id :: id in Fresh(rows, present) <==> id in rows && id !in present
    ensures forall i, j :: 0 <= i < j < |Fresh(rows, present)| ==> Fresh(rows, present)[i] != Fresh(rows, present)[j]
  {
    if rows != [] {
      FreshIsFresh(rows[..|rows| - 1], present);
      assert rows == rows[..|rows| - 1] + [rows[|rows| - 1]];
      var before := Fresh(rows[..|rows| - 1], present);
      assert forall i :: 0 <= i < |before| ==> before[i] in before;
    }
  }

  function Prefix(ids: seq<int>, room: int): seq<int> {
    if room <= 0 then [] else if |ids| <= room then ids else ids[..room]
  }

  method LowestScore(hits: seq<Hit>) returns (floor: real)
    ensures floor == FloorScore(hits)
  {
    floor := 0.0;
    for i := 0 to |hits|
      invariant floor == FloorScore(hits[..i])
    {
      assert hits[..i + 1][..i] == hits[..i];
      if floor == 0.0 || hits[i].score < floor { floor := hits[i].score; }
    }
    assert hits[..|hits|] == hits;
  }

  /** The first rows not present, as many as there is room for, scored down from the base. */
  method FillTerms(rows: seq<int>, present: set<int>, base: real, room: nat) returns (added: seq<Hit>)
    ensures Ids(added) == Prefix(Fresh(rows, present), room)
    ensures forall r :: 0 <= r < |added| ==> added[r].score == TermScore(base, r + 1)
  {
    hide TermScore, Fresh;
    added := [];
    var i := 0;
    FreshStep(rows, present, 0);
    while i < |rows| && |added| < room
      invariant 0 <= i <= |rows| && |added| <= room
      invariant Ids(added) == Fresh(rows[..i], present)
      invariant forall r :: 0 <= r < |added| ==> added[r].score == TermScore(base, r + 1)
    {
      FreshStep(rows, present, i);
      if rows[i] !in present {
        var h := Hit(rows[i], TermScore(base, |added| + 1));
        assert Ids(added + [h]) == Ids(added) + [rows[i]];
        added := added + [h];
      }
      i := i + 1;
    }
    FreshPrefix(rows, present, i);
    assert rows[..|rows|] == rows;
  }

  lemma FreshStep(rows: seq<int>, present: set<int>, i: nat)
    requires i <= |rows|
    ensures i == 0 ==> Fresh(rows[..i], present) == []
    ensures i < |rows| && rows[i] in present ==> Fresh(rows[..i + 1], present) == Fresh(rows[..i], present)
    ensures i < |rows| && rows[i] !in present ==>
      Fresh(rows[..i + 1], present) == Fresh(rows[..i], present) + [rows[i]]
  {
    if i < |rows| { assert rows[..i + 1][..i] == rows[..i]; }
  }

  /** Term matches below everything found so far, as far as there is room. None: no term index, or no terms. */
  method FtsFill(hits: seq<Hit>, k: int, rows: Option<seq<int>>) returns (added: seq<Hit>)
    ensures Ids(added) == if rows.None? then [] else Prefix(Fresh(rows.value, IdSet(hits)), k - |hits|)
    ensures forall r :: 0 <= r < |added| ==> added[r].score == TermScore(Base(hits), r + 1)
  {
    hide TermScore, IdSet, FloorScore, Fresh;
    added := [];
    assert Ids([]) == [];
    if rows.None? { return; }
    if |hits| >= k { return; }
    var floor := LowestScore(hits);
    added := FillTerms(rows.value, IdSet(hits), if hits == [] then FTS_ALONE else floor * FTS_CEILING, k - |hits|);
  }

  lemma {:induction false} FreshPrefix(rows: seq<int>, present: set<int>, i: nat)
    requires i <= |rows|
    ensures Fresh(rows[..i], present) <= Fresh(rows, present)
  {
    if i == |rows| {
      assert rows[..i] == rows;
    } else {
      var init := rows[..|rows| - 1];
      FreshPrefix(init, present, i);
      assert init[..i] == rows[..i];
    }
  }

  // ── Direct hits ──

  /** A row of the nearest-neighbour query, inside the caller's partition. */
  datatype Near = Near(id: int, distance: real)

  ghost predicate IsNearRows(t: Tables, user: int, k: int, rows: seq<Near>) {
    && (forall j :: 0 <= j < |rows| ==> rows[j].id in t.vectors && t.vectors[rows[j].id].user == user)
    && (forall i, j :: 0 <= i < j < |rows| ==> rows[i].id != rows[j].id)
    && |rows| <= 8 * k
  }

  function NearHit(t: Tables, row: Near): Hit
    requires row.id in t.memories
  {
    Hit(row.id, (1.0 - row.distance) * SourceWeight(t.memories[row.id].source))
  }

  /** Of two rows of like sources the nearer scores higher. */
  lemma NearerScoresHigher(t: Tables, a: Near, b: Near)
    requires a.id in t.memories && b.id in t.memories && t.memories[a.id].source == t.memories[b.id].source
    ensures a.distance < b.distance <==> NearHit(t, a).score > NearHit(t, b).score
    ensures NearHit(t, a).id == a.id
  {
    var weight := SourceWeight(t.memories[a.id].source);
    assert NearHit(t, a).score - NearHit(t, b).score == (b.distance - a.distance) * weight;
  }

  /** At one distance below the whole, what was kept deliberately outranks what was consolidated, and that the rest. */
  lemma DeliberateOutranks(t: Tables, a: Near, b: Near, c: Near)
    requires a.id in t.memories && b.id in t.memories && c.id in t.memories
    requires a.distance == b.distance == c.distance < 1.0
    requires t.memories[a.id].source in {"user", "tool"} && t.memories[b.id].source == "consolidated"
    requires t.memories[c.id].source !in {"user", "tool", "consolidated"}
    ensures NearHit(t, a).score > NearHit(t, b).score > NearHit(t, c).score == 1.0 - c.distance
  {
  }

  function Cut(hits: seq<Hit>, k: int): seq<Hit>
    requires k >= 0
  {
    if |hits| > k then hits[..k] else hits
  }

  /** The hits the rows make, for the agent asked about. */
  ghost predicate IsPool(t: Tables, user: int, agent: string, rows: seq<Near>, pool: seq<Hit>) {
    forall h :: h in pool <==>
      exists j :: 0 <= j < |rows| && Mine(t, user, agent, rows[j].id) && h == NearHit(t, rows[j])
  }

  method NearPool(t: Tables, user: int, agent: string, rows: seq<Near>, k: int) returns (pool: seq<Hit>)
    requires Consistent(t) && IsNearRows(t, user, k, rows)
    ensures Distinct(pool) && AllMine(t, user, agent, pool) && IsPool(t, user, agent, rows, pool)
  {
    hide MemoriesOk, LinksOk, JudgmentsOk, FtsOk, NearHit;
    pool := [];
    for j := 0 to |rows|
      invariant Distinct(pool) && AllMine(t, user, agent, pool)
      invariant IsPool(t, user, agent, rows[..j], pool)
    {
      var row := rows[j];
      assert VectorsOk(t) && row.id in t.vectors;
      assert rows[..j + 1] == rows[..j] + [row];
      if (agent != "" && t.memories[row.id].agent != agent) || t.memories[row.id].user != user {
        PoolSkips(t, user, agent, rows[..j], row, pool);
        continue;
      }
      PoolGrows(t, user, agent, rows[..j], row, pool);
      pool := pool + [NearHit(t, row)];
    }
    assert rows[..|rows|] == rows;
  }

  lemma PoolSkips(t: Tables, user: int, agent: string, rows: seq<Near>, row: Near, pool: seq<Hit>)
    requires IsPool(t, user, agent, rows, pool) && !Mine(t, user, agent, row.id)
    ensures IsPool(t, user, agent, rows + [row], pool)
  {
    hide NearHit;
    forall h | h in pool
      ensures exists j :: 0 <= j < |rows + [row]| && Mine(t, user, agent, (rows + [row])[j].id)
                && h == NearHit(t, (rows + [row])[j])
    {
      var j :| 0 <= j < |rows| && Mine(t, user, agent, rows[j].id) && h == NearHit(t, rows[j]);
      assert (rows + [row])[j] == rows[j];
    }
  }

  lemma PoolGrows(t: Tables, user: int, agent: string, rows: seq<Near>, row: Near, pool: seq<Hit>)
    requires IsPool(t, user, agent, rows, pool) && Mine(t, user, agent, row.id) && Distinct(pool)
    requires forall j :: 0 <= j < |rows| ==> rows[j].id != row.id
    ensures IsPool(t, user, agent, rows + [row], pool + [NearHit(t, row)])
    ensures Distinct(pool + [NearHit(t, row)]) && NearHit(t, row).id == row.id
  {
    var all := rows + [row];
    assert all[|rows|] == row;
    forall h | h in pool
      ensures h.id != row.id
      ensures exists j :: 0 <= j < |all| && Mine(t, user, agent, all[j].id) && h == NearHit(t, all[j])
    {
      var j :| 0 <= j < |rows| && Mine(t, user, agent, rows[j].id) && h == NearHit(t, rows[j]);
      assert all[j] == rows[j];
    }
    assert forall i :: 0 <= i < |pool| ==> pool[i] in pool;
  }

  /** The k best of the agent's rows, by similarity weighted by source. */
  method RecallSemantic(t: Tables, user: int, agent: string, rows: seq<Near>, k: int) returns (out: seq<Hit>)
    requires Consistent(t) && IsNearRows(t, user, k, rows) && k > 0
    ensures |out| <= k && Distinct(out) && AllMine(t, user, agent, out) && Descending(out)
    ensures exists pool :: IsPool(t, user, agent, rows, pool) && out == Cut(SortDesc(pool), k)
                           && (pool == [] <==> out == [])
    ensures forall j :: 0 <= j < |rows| && Mine(t, user, agent, rows[j].id) ==>
      NearHit(t, rows[j]) in out || (|out| == k && forall h :: h in out ==> h.score >= NearHit(t, rows[j]).score)
  {
    hide Consistent, IsNearRows, NearHit;
    var pool := NearPool(t, user, agent, rows, k);
    out := SortDesc(pool);
    if |out| > k { out := out[..k]; }
    SortedCut(t, user, agent, pool, out, k);
    forall j | 0 <= j < |rows| && Mine(t, user, agent, rows[j].id)
      ensures NearHit(t, rows[j]) in out
              || (|out| == k && forall h :: h in out ==> h.score >= NearHit(t, rows[j]).score)
    {
      assert NearHit(t, rows[j]) in pool;
    }
  }

  /** Sorting and cutting: what is left is in order, and what is cut off scores no more than anything left. */
  lemma SortedCut(t: Tables, user: int, agent: string, hits: seq<Hit>, out: seq<Hit>, k: int)
    requires Distinct(hits) && AllMine(t, user, agent, hits) && k >= 0 && out == Cut(SortDesc(hits), k)
    ensures |out| <= k && Distinct(out) && AllMine(t, user, agent, out) && Descending(out)
    ensures forall h :: h in hits ==> h in out || (|out| == k && forall x :: x in out ==> x.score >= h.score)
    ensures |hits| <= k ==> |out| == |hits| && forall h :: h in hits ==> h in out
  {
    hide Mine, SortDesc;
    SortDescSorts(hits);
    SortDescDistinct(hits);
    var sorted := SortDesc(hits);
    forall j | 0 <= j < |out| ensures Mine(t, user, agent, out[j].id) {
      assert sorted[j] in hits;
    }
    forall h | h in hits ensures h in out || (|out| == k && forall x :: x in out ==> x.score >= h.score) {
      var j :| 0 <= j < |sorted| && sorted[j] == h;
      if j < |out| {
        assert out[j] == h;
      } else {
        forall x | x in out ensures x.score >= h.score {
          var i :| 0 <= i < |out| && out[i] == x;
          assert sorted[i] == x;
        }
      }
    }
  }

  /** An answer to the keyword query: the caller's own, newest id first. */
  ghost predicate IsKeywordRows(t: Tables, user: int, agent: string, k: int, rows: seq<int>) {
    && (forall j :: 0 <= j < |rows| ==> Mine(t, user, agent, rows[j]))
    && (forall i, j :: 0 <= i < j < |rows| ==> rows[i] > rows[j])
    && |rows| <= k
  }

  /** Newest first, each scoring its source's weight. */
  ghost predicate IsKeywordHits(t: Tables, rows: seq<int>, hits: seq<Hit>) {
    && |hits| == |rows|
    && forall j :: 0 <= j < |rows| ==>
      rows[j] in t.memories && hits[j] == Hit(rows[j], SourceWeight(t.memories[rows[j]].source))
  }

  method RecallKeyword(t: Tables, user: int, agent: string, rows: seq<int>, k: int) returns (out: seq<Hit>)
    requires IsKeywordRows(t, user, agent, k, rows)
    ensures |out| == |rows| <= k && Distinct(out) && AllMine(t, user, agent, out) && AllPositive(out)
    ensures IsKeywordHits(t, rows, out)
  {
    out := [];
    for j := 0 to |rows|
      invariant |out| == j
      invariant forall i :: 0 <= i < j ==>
        rows[i] in t.memories && out[i] == Hit(rows[i], SourceWeight(t.memories[rows[i]].source))
    {
      out := out + [Hit(rows[j], SourceWeight(t.memories[rows[j]].source))];
    }
  }

  // ── Widening ──

  /** Where the hits of an answer come from. */
  datatype Sources = Sources(direct: seq<Hit>, linked: seq<Hit>, terms: seq<Hit>) {
    function All(): seq<Hit> { direct + linked + terms }
  }

  /** Reached over a link from a direct hit that scores more. */
  ghost predicate BelowAnchor(t: Tables, direct: seq<Hit>, h: Hit) {
    exists i :: 0 <= i < |direct| && FromAnchor(t, direct[i], h) && 0.0 < h.score < direct[i].score
  }

  /** What widening promises of the three kinds of hits, when direct hits score above zero. */
  ghost predicate Ranked(t: Tables, s: Sources) {
    && (forall j :: 0 <= j < |s.linked| ==> BelowAnchor(t, s.direct, s.linked[j]))
    && (forall i, j :: 0 <= i < |s.direct + s.linked| && 0 <= j < |s.terms| ==>
          s.terms[j].score < (s.direct + s.linked)[i].score)
    && (forall i, j :: 0 <= i < j < |s.terms| ==> s.terms[j].score < s.terms[i].score)
  }

  lemma LinkedBelowAnchors(t: Tables, direct: seq<Hit>, h: Hit)
    requires LinksOk(t) && AllPositive(direct) && FromSome(t, direct, h)
    ensures BelowAnchor(t, direct, h) && h.score > 0.0
  {
    hide LinkScore;
    var i :| 0 <= i < |direct| && FromAnchor(t, direct[i], h);
    var k :| k in t.links && Touches(k, direct[i].id) && OtherEnd(k, direct[i].id) == h.id
      && h.score == LinkScore(direct[i].score, t.links[k]);
    LinkScoreBelow(direct[i].score, t.links[k]);
  }

  lemma TermsBelow(hits: seq<Hit>, terms: seq<Hit>)
    requires AllPositive(hits) && forall r :: 0 <= r < |terms| ==> terms[r].score == TermScore(Base(hits), r + 1)
    ensures forall i, j :: 0 <= i < |hits| && 0 <= j < |terms| ==> terms[j].score < hits[i].score
    ensures forall i, j :: 0 <= i < j < |terms| ==> terms[j].score < terms[i].score
  {
    hide TermScore;
    if hits != [] { FloorIsLowest(hits); }
    var base := Base(hits);
    forall j | 0 <= j < |terms| ensures terms[j].score < base {
      ZeroRank(base);
      TermScoresFall(base, 0, j + 1);
    }
    forall i, j | 0 <= i < j < |terms| ensures terms[j].score < terms[i].score {
      TermScoresFall(base, i + 1, j + 1);
    }
  }

  lemma ZeroRank(base: real)
    ensures TermScore(base, 0) == base
  {
  }

  /** The best direct hit is the best of all. */
  lemma {:induction false} BestOfDirectIsBest(t: Tables, s: Sources, i: nat)
    requires Ranked(t, s) && IsBest(s.direct, i)
    ensures IsBest(s.All(), i) && s.All()[i] == s.direct[i]
  {
    hide FromAnchor;
    var all := s.All();
    forall j | |s.direct| <= j < |all| ensures all[j].score < all[i].score {
      if j < |s.direct + s.linked| {
        assert all[j] == s.linked[j - |s.direct|];
      } else {
        assert all[j] == s.terms[j - |s.direct + s.linked|];
        assert (s.direct + s.linked)[i] == all[i];
      }
    }
  }

  ghost predicate Has(hits: seq<Hit>, id: int) {
    exists j :: 0 <= j < |hits| && hits[j].id == id
  }

  /** Every memory of the caller's, and the agent's when one is named, that a link joins to a direct hit. */
  ghost predicate LinkedAreThere(t: Tables, user: int, agent: string, direct: seq<Hit>, r: seq<Hit>) {
    forall key, a: int, b: int ::
      key in t.links && (key == LinkKey(a, b, key.rel) || key == LinkKey(b, a, key.rel)) && Has(direct, a)
      && b in t.memories && t.memories[b].user == user && (agent != "" ==> t.memories[b].agent == agent)
      ==> Has(r, b)
  }

  /** Every row of the term query, or as many hits as were asked for. */
  ghost predicate TermsAreThere(k: int, terms: Option<seq<int>>, r: seq<Hit>) {
    terms.Some? ==> |r| >= k || forall j :: 0 <= j < |terms.value| ==> Has(r, terms.value[j])
  }

  lemma Carried(hits: seq<Hit>, r: seq<Hit>, id: int)
    requires (forall h :: h in hits ==> h in r) && id in IdSet(hits)
    ensures Has(r, id)
  {
    var h :| h in hits && h.id == id;
    var j :| 0 <= j < |r| && r[j] == h;
  }

  /** With room for everything found, whatever a link leads to is in the answer. */
  lemma LinkedAreFound(t: Tables, user: int, agent: string, s: Sources, k: int, r: seq<Hit>)
    requires LinksOk(t) && |s.All()| <= k && forall h :: h in s.All() ==> h in r
    requires |s.linked| < k ==> forall i :: 0 <= i < |s.direct| ==>
      AllFound(t, user, agent, s.direct[i].id, IdSet(s.direct + s.linked))
    ensures LinkedAreThere(t, user, agent, s.direct, r)
  {
    var hits := s.direct + s.linked;
    forall h | h in hits ensures h in r {
      var j :| 0 <= j < |hits| && hits[j] == h;
      assert s.All()[j] == h;
    }
    forall key, a: int, b: int |
      key in t.links && (key == LinkKey(a, b, key.rel) || key == LinkKey(b, a, key.rel)) && Has(s.direct, a)
      && b in t.memories && t.memories[b].user == user && (agent != "" ==> t.memories[b].agent == agent)
      ensures Has(r, b)
    {
      var i :| 0 <= i < |s.direct| && s.direct[i].id == a;
      assert key.lo < key.hi;
      assert AllFound(t, user, agent, a, IdSet(hits));
      Carried(hits, r, b);
    }
  }

  /** And every row of the term query, unless the answer is full. */
  lemma {:induction false} TermsAreFound(s: Sources, k: int, terms: Option<seq<int>>, r: seq<Hit>)
    requires |r| == |s.All()| <= k && forall h :: h in s.All() ==> h in r
    requires terms.Some? ==> forall i, j :: 0 <= i < j < |terms.value| ==> terms.value[i] != terms.value[j]
    requires Ids(s.terms) ==
      if terms.None? then [] else Prefix(Fresh(terms.value, IdSet(s.direct + s.linked)), k - |s.direct + s.linked|)
    ensures TermsAreThere(k, terms, r)
  {
    hide IdSet, Fresh;
    var hits := s.direct + s.linked;
    IdSetAppend(hits, s.terms);
    if terms.Some? && |r| < k {
      var rows := terms.value;
      FreshIsFresh(rows, IdSet(hits));
      forall j | 0 <= j < |rows| ensures Has(r, rows[j]) {
        if rows[j] !in IdSet(hits) {
          assert |s.All()| == |hits| + |s.terms| && |Ids(s.terms)| == |s.terms|;
          assert Ids(s.terms) == Fresh(rows, IdSet(hits));
          TermIsThere(s.terms, rows[j]);
        }
        Carried(s.All(), r, rows[j]);
      }
    }
  }

  lemma TermIsThere(hits: seq<Hit>, id: int)
    requires id in Ids(hits)
    ensures id in IdSet(hits)
  {
    var j :| 0 <= j < |hits| && hits[j].id == id;
    assert hits[j] in hits;
  }

  /** Direct hits, widened by links and terms, sorted and cut to k. */
  method Widen(t: Tables, user: int, agent: string, direct: seq<Hit>, k: int,
               links: int -> seq<LinkKey>, terms: Option<seq<int>>) returns (r: seq<Hit>, ghost s: Sources)
    requires k > 0 && Consistent(t)
    requires Distinct(direct) && AllMine(t, user, agent, direct) && |direct| <= k
    requires forall id :: IsLinkRows(t, user, id, links(id))
    requires terms.Some? ==> IsTermRows(t, user, agent, k, terms.value)
    ensures s.direct == direct && r == Cut(SortDesc(s.All()), k)
    ensures |r| <= k && Distinct(r) && AllMine(t, user, agent, r) && Descending(r)
    ensures s.terms != [] ==> |s.All()| <= k && forall h :: h in s.All() ==> h in r
    ensures forall j :: 0 <= j < |s.linked| ==> FromSome(t, direct, s.linked[j])
    ensures |s.linked| < k ==> forall i :: 0 <= i < |direct| ==>
      AllFound(t, user, agent, direct[i].id, IdSet(direct + s.linked))
    ensures Ids(s.terms) == if terms.None? then []
                            else Prefix(Fresh(terms.value, IdSet(direct + s.linked)), k - |direct + s.linked|)
    ensures |s.All()| <= k ==> LinkedAreThere(t, user, agent, direct, r) && TermsAreThere(k, terms, r)
    ensures AllPositive(direct) ==> Ranked(t, s)
    ensures AllPositive(direct) ==> forall i: nat :: i < |direct| && IsBest(direct, i) ==> r != [] && r[0] == direct[i]
  {
    hide Consistent, IsLinkRows, IsTermRows, FromSome, IdSet, TermScore, Mine, Ranked, IsBest, Base, Fresh, SortDesc,
         AllFound, LinkedAreThere, TermsAreThere, Descending, Distinct, AllMine, AllPositive, Prefix, Ids;
    var linked;
    ghost var n, early;
    linked, n, early := ExpandLinks(t, user, agent, direct, k, links);
    forall j | 0 <= j < |linked| ensures FromSome(t, direct, linked[j]) { FromAny(t, direct, n, linked[j]); }
    var hits := direct + linked;
    var added := FtsFill(hits, k, terms);
    s := Sources(direct, linked, added);
    var all := hits + added;
    assert all == s.All();
    r := SortDesc(all);
    if |r| > k { r := r[..k]; }
    WidenedKeeps(t, user, agent, k, terms, s, r);
    WidenedMisses(t, user, agent, k, terms, s, r);
    if AllPositive(direct) { WidenedRanks(t, s, k, r); }
  }

  /** The parts of Widen's promise: what every answer is, what it does not miss, and in which order it comes. */
  lemma WidenedKeeps(t: Tables, user: int, agent: string, k: int, terms: Option<seq<int>>, s: Sources, r: seq<Hit>)
    requires k > 0 && Distinct(s.direct + s.linked)
    requires AllMine(t, user, agent, s.direct) && AllMine(t, user, agent, s.linked)
    requires terms.Some? ==> IsTermRows(t, user, agent, k, terms.value)
    requires Ids(s.terms) ==
      if terms.None? then [] else Prefix(Fresh(terms.value, IdSet(s.direct + s.linked)), k - |s.direct + s.linked|)
    requires r == Cut(SortDesc(s.All()), k)
    ensures |r| <= k && Distinct(r) && AllMine(t, user, agent, r) && Descending(r)
    ensures s.terms != [] ==> |s.All()| <= k
    ensures |s.All()| <= k ==> |r| == |s.All()| && forall h :: h in s.All() ==> h in r
  {
    hide Mine, IdSet, SortDesc, Fresh, IsTermRows;
    AllAreDistinct(t, user, agent, k, s.direct + s.linked, terms, s.terms);
    SortedCut(t, user, agent, s.All(), r, k);
  }

  lemma WidenedMisses(t: Tables, user: int, agent: string, k: int, terms: Option<seq<int>>, s: Sources, r: seq<Hit>)
    requires Consistent(t)
    requires |s.All()| <= k ==> |r| == |s.All()| && forall h :: h in s.All() ==> h in r
    requires |s.linked| < k ==> forall i :: 0 <= i < |s.direct| ==>
      AllFound(t, user, agent, s.direct[i].id, IdSet(s.direct) + IdSet(s.linked))
    requires terms.Some? ==> IsTermRows(t, user, agent, k, terms.value)
    requires Ids(s.terms) ==
      if terms.None? then [] else Prefix(Fresh(terms.value, IdSet(s.direct + s.linked)), k - |s.direct + s.linked|)
    ensures |s.linked| < k ==> forall i :: 0 <= i < |s.direct| ==>
      AllFound(t, user, agent, s.direct[i].id, IdSet(s.direct + s.linked))
    ensures |s.All()| <= k ==> LinkedAreThere(t, user, agent, s.direct, r) && TermsAreThere(k, terms, r)
  {
    assert LinksOk(t);
    hide Consistent, LinksOk, IdSet, AllFound, LinkedAreThere, TermsAreThere, Fresh, Mine;
    IdSetAppend(s.direct, s.linked);
    if |s.All()| <= k {
      LinkedAreFound(t, user, agent, s, k, r);
      TermsAreFound(s, k, terms, r);
    }
  }

  lemma WidenedRanks(t: Tables, s: Sources, k: int, r: seq<Hit>)
    requires Consistent(t) && AllPositive(s.direct) && k > 0 && r == Cut(SortDesc(s.All()), k)
    requires forall j :: 0 <= j < |s.linked| ==> FromSome(t, s.direct, s.linked[j])
    requires forall j :: 0 <= j < |s.terms| ==> s.terms[j].score == TermScore(Base(s.direct + s.linked), j + 1)
    ensures Ranked(t, s)
    ensures forall i: nat :: i < |s.direct| && IsBest(s.direct, i) ==> r != [] && r[0] == s.direct[i]
  {
    hide Consistent, FromSome, TermScore, Base, Ranked, IsBest, SortDesc;
    AnswerIsRanked(t, s.direct, s.linked, s.terms);
    assert s == Sources(s.direct, s.linked, s.terms);
    forall i: nat | i < |s.direct| && IsBest(s.direct, i) ensures r != [] && r[0] == s.direct[i] {
      BestOfDirectIsBest(t, s, i);
      BestComesFirst(s.All(), i);
    }
  }

  lemma AllAreDistinct(t: Tables, user: int, agent: string, k: int, hits: seq<Hit>, terms: Option<seq<int>>,
                       added: seq<Hit>)
    requires Distinct(hits) && AllMine(t, user, agent, hits)
    requires terms.Some? ==> IsTermRows(t, user, agent, k, terms.value)
    requires Ids(added) == if terms.None? then [] else Prefix(Fresh(terms.value, IdSet(hits)), k - |hits|)
    ensures Distinct(hits + added) && AllMine(t, user, agent, hits + added)
    ensures added != [] ==> |hits + added| <= k
  {
    hide Mine, IdSet;
    if terms.Some? {
      FreshIsFresh(terms.value, IdSet(hits));
      forall j | 0 <= j < |added| ensures added[j].id in terms.value && added[j].id !in IdSet(hits) {
        assert Ids(added)[j] in Fresh(terms.value, IdSet(hits));
      }
      AddedIsApart(hits, added);
    }
    IdSetAppend(hits, added);
  }

  lemma AddedIsApart(hits: seq<Hit>, added: seq<Hit>)
    requires forall j :: 0 <= j < |added| ==> added[j].id !in IdSet(hits)
    ensures IdSet(hits) !! IdSet(added)
  {
  }

  lemma AnswerIsRanked(t: Tables, direct: seq<Hit>, linked: seq<Hit>, added: seq<Hit>)
    requires Consistent(t) && AllPositive(direct)
    requires forall j :: 0 <= j < |linked| ==> FromSome(t, direct, linked[j])
    requires forall r :: 0 <= r < |added| ==> added[r].score == TermScore(Base(direct + linked), r + 1)
    ensures Ranked(t, Sources(direct, linked, added))
  {
    hide FromSome, FromAnchor, TermScore, BelowAnchor;
    forall j | 0 <= j < |linked| ensures BelowAnchor(t, direct, linked[j]) && linked[j].score > 0.0 {
      LinkedBelowAnchors(t, direct, linked[j]);
    }
    var s, hits := Sources(direct, linked, added), direct + linked;
    assert AllPositive(hits) by {
      assert forall j :: |direct| <= j < |hits| ==> hits[j] == linked[j - |direct|];
    }
    TermsBelow(hits, added);
    assert s.direct + s.linked == hits;
  }
}
