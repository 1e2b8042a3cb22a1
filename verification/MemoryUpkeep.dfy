/**
 What the store's background passes do to the tables, round by round: merging
 near-duplicates, judging links, giving memories their vectors.
 */
module MemoryUpkeep {
  import opened Wrappers
  import opened MemoryTables

  datatype EmbedOutcome = Embedded(vector: seq<real>) | Unavailable

  /** A row of the nearest-neighbour query. */
  datatype Neighbour = Neighbour(id: int, similarity: real)

  /** What the outside answers, n-th call by n-th call. */
  datatype Oracles = Oracles(
    hasEmbedder: bool,
    embed: nat -> EmbedOutcome,
    newId: set<int> -> int,             // the rowid SQLite gives the next row
    neighbours: nat -> seq<Neighbour>,  // the index's answer, in order of distance
    merge: nat -> Option<string>,       // None: the merge call failed
    judge: nat -> Option<string>)

  /** Row ids are positive and not in use; that they were used before is no obstacle. */
  ghost predicate FreshIds(o: Oracles) {
    forall used: set<int> :: o.newId(used) > 0 && o.newId(used) !in used
  }

  /** The index lists a memory once. */
  ghost predicate DistinctRows(o: Oracles) {
    forall n: nat, i, j :: 0 <= i < j < |o.neighbours(n)| ==> o.neighbours(n)[i].id != o.neighbours(n)[j].id
  }

  function Elements(ids: seq<int>): set<int> { set id | id in ids }

  ghost predicate Holds(t: Tables, id: int, user: int, agent: string, text: string) {
    Owned(t, user, id) && t.memories[id].agent == agent && t.memories[id].text == text
  }

  /** The vector the call-th embedding gives, when there is an embedder and it gives one. */
  function VectorAt(o: Oracles, call: nat): Option<seq<real>> {
    if o.hasEmbedder && o.embed(call).Embedded? && o.embed(call).vector != [] then Some(o.embed(call).vector) else None
  }

  // ── Pruning ──

  predicate IsStale(m: Memory, user: Option<int>, agent: string, before: int) {
    && m.source == "auto" && m.recallCount == 0 && m.createdAt <= before
    && (user.Some? ==> m.user == user.value) && (agent != "" ==> m.agent == agent)
  }

  function Stale(t: Tables, user: Option<int>, agent: string, before: int): set<int> {
    set id | id in t.memories && IsStale(t.memories[id], user, agent, before)
  }

  /** What a prune takes; a negative age disables it. */
  function Prunable(t: Tables, user: Option<int>, agent: string, afterDays: int, now: int): set<int> {
    if afterDays < 0 then {} else Stale(t, user, agent, now - afterDays * 86400)
  }

  // ── Vectors for the memories without one ──

  function Unvectored(t: Tables): set<int> { t.memories.Keys - t.vectors.Keys }

  /** The first n of the missing memories given the vectors of the calls from `call` on, each under its owner. */
  function Filled(o: Oracles, t: Tables, missing: seq<int>, call: nat, n: nat): Tables
    requires n <= |missing|
  {
    if n == 0 then t
    else
      var before, id := Filled(o, t, missing, call, n - 1), missing[n - 1];
      match VectorAt(o, call + n - 1)
      case Some(v) => if id in t.memories then PutVector(before, t.memories[id].user, id, v) else before
      case None => before
  }

  /** The k-th of the calls from `call` on gave a vector. */
  predicate VectorCame(o: Oracles, call: nat, k: nat) { VectorAt(o, call + k).Some? }

  ghost predicate VectorComes(o: Oracles, t: Tables, missing: seq<int>, call: nat, k: nat, size: nat)
    requires k < |missing|
  {
    missing[k] in t.memories && VectorAt(o, call + k).Some? && |VectorAt(o, call + k).value| == size
  }

  /** The vector of the call that was made for it, under its owner. */
  ghost predicate HasItsVector(o: Oracles, t: Tables, missing: seq<int>, call: nat, k: nat, r: Tables)
    requires k < |missing|
  {
    && missing[k] in t.memories && missing[k] in r.vectors && VectorAt(o, call + k).Some?
    && r.vectors[missing[k]] == Vector(t.memories[missing[k]].user, VectorAt(o, call + k).value)
  }

  /** With one dimension throughout, every memory filled keeps the vector of its own call, and no other loses its own. */
  lemma {:induction false} FilledKeepsEach(o: Oracles, t: Tables, missing: seq<int>, call: nat, n: nat, size: nat)
    requires n <= |missing| && (forall i, j :: 0 <= i < j < |missing| ==> missing[i] != missing[j])
    requires forall k: nat :: k < n ==> VectorComes(o, t, missing, call, k, size)
    requires t.dim == size || t.vectors == map[]
    ensures var r := Filled(o, t, missing, call, n);
      && (n == 0 || r.dim == size) && r.memories == t.memories
      && (forall k: nat :: k < n ==> HasItsVector(o, t, missing, call, k, r))
      && (forall id :: id in t.vectors && id !in missing ==> id in r.vectors && r.vectors[id] == t.vectors[id])
  {
    hide VectorAt;
    if n > 0 {
      FilledKeepsEach(o, t, missing, call, n - 1, size);
      assert VectorComes(o, t, missing, call, n - 1, size);
      var before, r := Filled(o, t, missing, call, n - 1), Filled(o, t, missing, call, n);
      forall k: nat | k < n ensures HasItsVector(o, t, missing, call, k, r) {
        assert k < n - 1 ==> HasItsVector(o, t, missing, call, k, before) && missing[k] != missing[n - 1];
      }
    }
  }

  // ── One merge ──

  /** The memories merged, one agent's, the row that stands for them, its text, and its vector if it gets one. */
  datatype Merge = Merge(agent: string, cluster: set<int>, kept: int, text: string, vector: Option<seq<real>>)

  /** The row is there or is inserted; the cluster goes but for it; then it gets its vector. */
  function Merged(t: Tables, user: int, now: int, m: Merge): Tables {
    var holding := if m.kept in t.memories then t
                   else Insert(t, m.kept, Memory(user, m.agent, m.text, "consolidated", now, 0));
    var gone := Remove(holding, m.cluster - {m.kept});
    match m.vector
    case Some(v) => PutVector(gone, user, m.kept, v)
    case None => gone
  }

  ghost predicate ProperMerge(t: Tables, user: int, m: Merge) {
    && (forall id :: id in m.cluster ==> Owned(t, user, id) && t.memories[id].agent == m.agent)
    && (if m.kept in t.memories then Holds(t, m.kept, user, m.agent, m.text)
        else forall id :: !Holds(t, id, user, m.agent, m.text))
  }

  /** Rows outside the cluster stand as they were, and the row kept holds the text for the owner and the agent. */
  lemma MergedRows(t: Tables, user: int, now: int, m: Merge)
    requires ProperMerge(t, user, m)
    ensures var r := Merged(t, user, now, m);
      && r.memories.Keys == t.memories.Keys - m.cluster + {m.kept}
      && (forall id :: id in r.memories && id in t.memories ==> r.memories[id] == t.memories[id])
      && Holds(r, m.kept, user, m.agent, m.text)
      && (m.vector.Some? ==> m.kept in r.vectors && r.vectors[m.kept] == Vector(user, m.vector.value))
  {
  }

  lemma MergedLeavesOutside(t: Tables, user: int, now: int, m: Merge)
    requires Consistent(t) && ProperMerge(t, user, m)
    ensures OutsideUntouched(t, Merged(t, user, now, m), user, m.agent)
  {
    hide Consistent, OutsideUntouched, PutVector, Remove, Insert;
    var row := Memory(user, m.agent, m.text, "consolidated", now, 0);
    var holding := if m.kept in t.memories then t else Insert(t, m.kept, row);
    var gone := Remove(holding, m.cluster - {m.kept});
    if m.kept in t.memories {
      NothingOutside(t, user, m.agent);
    } else {
      InsertLeavesOutside(t, m.kept, row, user, m.agent);
    }
    InsertedRows(t, m.kept, row);
    RemoveLeavesOutside(holding, m.cluster - {m.kept}, user, m.agent);
    OutsideTransitive(t, holding, gone, user, m.agent);
    if m.vector.Some? {
      PutVectorLeavesOutside(gone, user, m.kept, m.vector.value, user, m.agent);
      OutsideTransitive(t, gone, Merged(t, user, now, m), user, m.agent);
    }
  }

  /** The merged text has no vector, or one of this dimension. */
  predicate Fits(m: Merge, dim: nat) { m.vector.None? || |m.vector.value| == dim }

  predicate Involved(m: Merge, id: int) { id in m.cluster || id == m.kept }

  /** A memory that the merge has nothing to do with keeps its vector exactly when the merged text's fits. */
  lemma {:induction false} MergedVectorsExactly(t: Tables, user: int, now: int, m: Merge, other: int)
    requires !Involved(m, other)
    ensures var r := Merged(t, user, now, m);
      && (other in t.vectors ==> (VectorKept(t, r, other) <==> Fits(m, t.dim)))
      && (other in t.vectors && !Fits(m, t.dim) ==> other !in r.vectors)
      && (other !in t.vectors ==> other !in r.vectors)
      && (Fits(m, t.dim) ==> r.dim == t.dim)
  {
  }

  /** Nobody outside has anything to do with a merge. */
  lemma OutsideIsUninvolved(t: Tables, user: int, m: Merge, other: int)
    requires ProperMerge(t, user, m) && OutsideIn(t, other, user, m.agent)
    ensures !Involved(m, other)
  {
  }

  /** Two accounts, one-dimensional vectors. */
  const TWO_ACCOUNTS := Tables(
    map[1 := Memory(1, "a", "x", "auto", 0, 0), 2 := Memory(1, "a", "y", "auto", 0, 0),
        3 := Memory(2, "a", "z", "auto", 0, 0)],
    map[1 := Vector(1, [0.0]), 2 := Vector(1, [0.0]), 3 := Vector(2, [0.0])],
    map[], map[], map[1 := "x", 2 := "y", 3 := "z"], 1)

  lemma TwoAccountsAreConsistent()
    ensures Consistent(TWO_ACCOUNTS)
  {
    var t := TWO_ACCOUNTS;
    assert t.memories.Keys == {1, 2, 3} && t.vectors.Keys == {1, 2, 3} && t.fts.Keys == {1, 2, 3};
    assert t.memories[1].text == "x" && t.memories[2].text == "y" && t.memories[3].text == "z";
    assert t.memories[1].user == t.memories[2].user == 1 && t.memories[3].user == 2;
    forall a, b | a in t.memories && b in t.memories && SameFact(t.memories[a], t.memories[b]) ensures a == b {
      assert "x"[0] != "y"[0];
    }
    assert MemoriesOk(t);
    hide MemoriesOk;
  }

  /** Merging the first account's memories into a text with a two-dimensional vector costs the second its vector. */
  lemma MergeDropsOthers()
    ensures var m := Merge("a", {1, 2}, 4, "xy", Some([0.0, 0.0]));
      && Consistent(TWO_ACCOUNTS) && ProperMerge(TWO_ACCOUNTS, 1, m) && OutsideIn(TWO_ACCOUNTS, 3, 1, "")
      && 3 in TWO_ACCOUNTS.vectors && 3 !in Merged(TWO_ACCOUNTS, 1, 0, m).vectors
  {
    hide Consistent, Merged;
    TwoAccountsAreConsistent();
    MergedVectorsExactly(TWO_ACCOUNTS, 1, 0, Merge("a", {1, 2}, 4, "xy", Some([0.0, 0.0])), 3);
  }

  lemma InsertedRows(t: Tables, id: int, m: Memory)
    ensures Insert(t, id, m).memories == t.memories[id := m]
  {
  }

  lemma NothingOutside(t: Tables, user: int, agent: string)
    ensures OutsideUntouched(t, t, user, agent)
  {
  }

  // ── Consolidation, round by round ──

  /** The index lists the id, in the user's partition. */
  ghost predicate Listed(t: Tables, rows: seq<Neighbour>, user: int, id: int) {
    id in t.vectors && t.vectors[id].user == user && exists k :: 0 <= k < |rows| && rows[k].id == id
  }

  /** And within the band of similarity. */
  ghost predicate Close(t: Tables, rows: seq<Neighbour>, user: int, floor: real, ceiling: Option<real>, id: int) {
    && id in t.vectors && t.vectors[id].user == user
    && exists k :: 0 <= k < |rows| && rows[k].id == id && rows[k].similarity >= floor
         && (ceiling.Some? ==> rows[k].similarity <= ceiling.value)
  }

  predicate InBand(row: Neighbour, floor: real, ceiling: Option<real>) {
    row.similarity >= floor && (ceiling.Some? ==> row.similarity <= ceiling.value)
  }

  /** The seed's near duplicates: listed with it, similar enough, of its agent, in no earlier cluster. */
  ghost predicate InCluster(t: Tables, rows: seq<Neighbour>, user: int, seed: int, floor: real, claimed: set<int>,
                            id: int)
  {
    && Listed(t, rows, user, seed) && Close(t, rows, user, floor, None, id) && id !in claimed
    && seed in t.memories && id in t.memories && t.memories[id].agent == t.memories[seed].agent
  }

  /** What the merge model said, when it said something to merge into. */
  function MergeText(o: Oracles, call: nat): Option<string> {
    match o.merge(call)
    case None => None
    case Some(text) => if text == "" || "KEEP ALL" <= text then None else Some(text)
  }

  /** One candidate's turn: its cluster as found, and the merge it led to. */
  datatype Round = Round(seed: int, before: Tables, claimed: set<int>, call: nat, cluster: seq<int>, merge: Option<Merge>)
  {
    /** It was put to the merge model. */
    predicate Asked() { |cluster| >= 2 }

    function Taken(): set<int> { if Asked() then Elements(cluster) else {} }

    function MergedIds(): set<int> { if merge.Some? then merge.value.cluster else {} }

    function After(user: int, now: int): Tables {
      if merge.Some? then Merged(before, user, now, merge.value) else before
    }

    function Used(o: Oracles): nat {
      if seed in claimed || seed !in before.vectors then 0
      else 1 + if !Asked() then 0 else 1 + if merge.Some? && o.hasEmbedder then 1 else 0
    }
  }

  /** The cluster is exactly the seed's, and is merged exactly when the model gives a text for it. */
  ghost predicate RoundOk(o: Oracles, user: int, floor: real, r: Round) {
    && (forall id :: id in r.cluster <==>
          r.seed !in r.claimed && InCluster(r.before, o.neighbours(r.call), user, r.seed, floor, r.claimed, id))
    && match r.merge
       case None => r.Asked() ==> MergeText(o, r.call + 1).None?
       case Some(m) =>
         && r.Asked() && MergeText(o, r.call + 1) == Some(m.text)
         && m.cluster == Elements(r.cluster) && m.vector == VectorAt(o, r.call + 2)
         && r.seed in r.before.memories && m.agent == r.before.memories[r.seed].agent
         && ProperMerge(r.before, user, m)
  }

  function Claimed(rounds: seq<Round>): set<int> {
    if rounds == [] then {} else Claimed(rounds[..|rounds| - 1]) + rounds[|rounds| - 1].Taken()
  }

  function MergedIn(rounds: seq<Round>): set<int> {
    if rounds == [] then {} else MergedIn(rounds[..|rounds| - 1]) + rounds[|rounds| - 1].MergedIds()
  }

  function TablesAfter(user: int, now: int, start: Tables, rounds: seq<Round>): Tables {
    if rounds == [] then start else rounds[|rounds| - 1].After(user, now)
  }

  function CallsAfter(o: Oracles, start: nat, rounds: seq<Round>): nat {
    if rounds == [] then start else rounds[|rounds| - 1].call + rounds[|rounds| - 1].Used(o)
  }

  datatype Report = Report(seen: nat, merged: nat, pruned: nat, kept: nat)

  function ReportAfter(o: Oracles, rounds: seq<Round>): Report {
    if rounds == [] then Report(0, 0, 0, 0)
    else Counted(o, ReportAfter(o, rounds[..|rounds| - 1]), rounds[|rounds| - 1])
  }

  /** A cluster seen, merged, or declined by the model's word; a failed call counts as none of the last two. */
  function Counted(o: Oracles, report: Report, r: Round): Report {
    if !r.Asked() then report
    else if r.merge.Some? then report.(seen := report.seen + 1, merged := report.merged + |r.cluster|)
    else report.(seen := report.seen + 1, kept := report.kept + if o.merge(r.call + 1).Some? then 1 else 0)
  }

  /** The rounds follow one another from the starting tables, each as it must go. */
  ghost predicate Ran(o: Oracles, user: int, floor: real, now: int, start: Tables, call: nat, rounds: seq<Round>) {
    rounds == [] ||
    var init, last := rounds[..|rounds| - 1], rounds[|rounds| - 1];
    && Ran(o, user, floor, now, start, call, init) && RoundOk(o, user, floor, last)
    && last.before == TablesAfter(user, now, start, init)
    && last.claimed == Claimed(init) && last.call == CallsAfter(o, call, init)
  }

  /** A memory that no merge took is still there, unchanged. */
  lemma {:induction false} UnmergedSurvives(o: Oracles, user: int, floor: real, now: int, start: Tables, call: nat,
                                            rounds: seq<Round>, id: int)
    requires Ran(o, user, floor, now, start, call, rounds) && id in start.memories && id !in MergedIn(rounds)
    ensures var r := TablesAfter(user, now, start, rounds); id in r.memories && r.memories[id] == start.memories[id]
  {
    hide Merged, InCluster;
    if rounds != [] {
      var last := rounds[|rounds| - 1];
      UnmergedSurvives(o, user, floor, now, start, call, rounds[..|rounds| - 1], id);
      if last.merge.Some? { MergedRows(last.before, user, now, last.merge.value); }
    }
  }

  /** What is there and was not, or is another row than it was, some merge of an earlier text put there. */
  lemma {:induction false} NewRowsAreMerged(o: Oracles, user: int, floor: real, now: int, start: Tables, call: nat,
                                            rounds: seq<Round>, id: int)
    requires Ran(o, user, floor, now, start, call, rounds) && id in TablesAfter(user, now, start, rounds).memories
    requires id in start.memories ==> TablesAfter(user, now, start, rounds).memories[id] != start.memories[id]
    ensures var row := TablesAfter(user, now, start, rounds).memories[id];
      exists i :: 0 <= i < |rounds| && rounds[i].merge.Some? && rounds[i].merge.value.kept == id
        && row.user == user && row.agent == rounds[i].merge.value.agent && row.text == rounds[i].merge.value.text
  {
    hide Merged, InCluster;
    if rounds != [] {
      var init, last := rounds[..|rounds| - 1], rounds[|rounds| - 1];
      if last.merge.Some? { MergedRows(last.before, user, now, last.merge.value); }
      if last.merge.Some? && last.merge.value.kept == id {
        assert rounds[|rounds| - 1].merge.value.kept == id;
      } else {
        NewRowsAreMerged(o, user, floor, now, start, call, init, id);
        var i :| 0 <= i < |init| && init[i].merge.Some? && init[i].merge.value.kept == id
          && init[i].merge.value.agent == TablesAfter(user, now, start, init).memories[id].agent
          && init[i].merge.value.text == TablesAfter(user, now, start, init).memories[id].text;
        assert rounds[i] == init[i];
      }
    }
  }

  predicate AllFit(rounds: seq<Round>, dim: nat) {
    forall i :: 0 <= i < |rounds| && rounds[i].merge.Some? ==> Fits(rounds[i].merge.value, dim)
  }

  predicate Uninvolved(rounds: seq<Round>, id: int) {
    forall i :: 0 <= i < |rounds| && rounds[i].merge.Some? ==> !Involved(rounds[i].merge.value, id)
  }

  /** The merges are all of this agent's memories, or of anybody's for "". */
  predicate OfAgentOnly(rounds: seq<Round>, agent: string) {
    forall i :: 0 <= i < |rounds| && rounds[i].merge.Some? ==> agent == "" || rounds[i].merge.value.agent == agent
  }

  /** Over all rounds: a memory no merge has to do with keeps its vector exactly when every merged text's fits. */
  lemma {:induction false} VectorsKeptExactly(o: Oracles, user: int, floor: real, now: int, start: Tables, call: nat,
                                              rounds: seq<Round>, other: int)
    requires Ran(o, user, floor, now, start, call, rounds) && other in start.vectors && Uninvolved(rounds, other)
    ensures var r := TablesAfter(user, now, start, rounds);
      && (VectorKept(start, r, other) <==> AllFit(rounds, start.dim))
      && (if AllFit(rounds, start.dim) then r.dim == start.dim else other !in r.vectors)
  {
    hide Merged, RoundOk, Fits, Involved;
    if rounds != [] {
      var init, last := rounds[..|rounds| - 1], rounds[|rounds| - 1];
      VectorsKeptExactly(o, user, floor, now, start, call, init, other);
      assert AllFit(rounds, start.dim) <==>
             AllFit(init, start.dim) && (last.merge.Some? ==> Fits(last.merge.value, start.dim));
      if last.merge.Some? { MergedVectorsExactly(last.before, user, now, last.merge.value, other); }
    }
  }

  /** Nobody outside has anything to do with any of them, so their rows stand. */
  lemma {:induction false} OutsidersAreUninvolved(o: Oracles, user: int, floor: real, now: int, start: Tables, call: nat,
                                                  rounds: seq<Round>, agent: string, other: int)
    requires Ran(o, user, floor, now, start, call, rounds) && OfAgentOnly(rounds, agent)
    requires OutsideIn(start, other, user, agent)
    ensures Uninvolved(rounds, other)
    ensures var r := TablesAfter(user, now, start, rounds);
      other in r.memories && r.memories[other] == start.memories[other]
  {
    hide Merged, InCluster, ProperMerge, Involved;
    if rounds != [] {
      var init, last := rounds[..|rounds| - 1], rounds[|rounds| - 1];
      OutsidersAreUninvolved(o, user, floor, now, start, call, init, agent, other);
      if last.merge.Some? {
        var m := last.merge.value;
        OutsideIsUninvolved(last.before, user, m, other);
        UninvolvedStays(last.before, user, now, m, other);
      }
    }
  }

  lemma UninvolvedStays(t: Tables, user: int, now: int, m: Merge, other: int)
    requires ProperMerge(t, user, m) && other in t.memories && !Involved(m, other)
    ensures var r := Merged(t, user, now, m); other in r.memories && r.memories[other] == t.memories[other]
  {
    MergedRows(t, user, now, m);
  }

  lemma {:induction false} ClaimedGrows(rounds: seq<Round>, i: nat)
    requires i < |rounds|
    ensures rounds[i].Taken() <= Claimed(rounds)
  {
    if i < |rounds| - 1 { ClaimedGrows(rounds[..|rounds| - 1], i); }
  }

  /** No memory takes part in two merges. */
  lemma {:induction false} ClustersApart(o: Oracles, user: int, floor: real, now: int, start: Tables, call: nat,
                                         rounds: seq<Round>, i: nat, j: nat)
    requires Ran(o, user, floor, now, start, call, rounds) && i < j < |rounds|
    ensures rounds[i].MergedIds() !! rounds[j].MergedIds()
  {
    hide InCluster, ProperMerge, TablesAfter, CallsAfter;
    var init, last := rounds[..|rounds| - 1], rounds[|rounds| - 1];
    if j < |rounds| - 1 {
      ClustersApart(o, user, floor, now, start, call, init, i, j);
    } else {
      ClaimedGrows(init, i);
      RoundIsOk(o, user, floor, now, start, call, rounds, i);
      forall id | id in last.MergedIds() ensures id !in Claimed(init) {
        assert id in last.cluster;
        ClusterIsUnclaimed(last.before, o.neighbours(last.call), user, last.seed, floor, last.claimed, id);
      }
      assert rounds[i] == init[i] && rounds[i].MergedIds() <= rounds[i].Taken();
    }
  }

  lemma ClusterIsUnclaimed(t: Tables, rows: seq<Neighbour>, user: int, seed: int, floor: real, claimed: set<int>, id: int)
    requires InCluster(t, rows, user, seed, floor, claimed, id)
    ensures id !in claimed
  {
  }

  lemma {:induction false} RoundIsOk(o: Oracles, user: int, floor: real, now: int, start: Tables, call: nat,
                                     rounds: seq<Round>, i: nat)
    requires Ran(o, user, floor, now, start, call, rounds) && i < |rounds|
    ensures RoundOk(o, user, floor, rounds[i])
  {
    hide RoundOk, TablesAfter, CallsAfter;
    if i < |rounds| - 1 { RoundIsOk(o, user, floor, now, start, call, rounds[..|rounds| - 1], i); }
  }

  /** After each merge the row it kept held the merged text, for the owner and the cluster's agent. */
  lemma KeptHoldsText(o: Oracles, user: int, floor: real, now: int, start: Tables, call: nat, rounds: seq<Round>, i: nat)
    requires Ran(o, user, floor, now, start, call, rounds) && i < |rounds| && rounds[i].merge.Some?
    ensures var r, m := rounds[i], rounds[i].merge.value;
      && MergeText(o, r.call + 1) == Some(m.text) && Holds(r.After(user, now), m.kept, user, m.agent, m.text)
      && forall id :: id in m.cluster ==> Owned(r.before, user, id) && r.before.memories[id].agent == m.agent
  {
    hide Merged, InCluster, MergeText;
    RoundIsOk(o, user, floor, now, start, call, rounds, i);
    MergedRows(rounds[i].before, user, now, rounds[i].merge.value);
  }

  // ── Judging links, anchor by anchor ──

  const SPACES := {' ', '\t', '\n', '\r', 0x0B as char, 0x0C as char}

  predicate IsSpace(c: char) {
    c == ' ' || c == '\t' || c == '\n' || c == '\r' || c == 0x0B as char || c == 0x0C as char
  }

  function TrimRight(s: string): (r: string)
    ensures r <= s && (r != "" ==> r[|r| - 1] !in SPACES)
    ensures forall k :: |r| <= k < |s| ==> s[k] in SPACES
  {
    if s != "" && IsSpace(s[|s| - 1]) then TrimRight(s[..|s| - 1]) else s
  }

  /** The judge's word on a pair; a failed call is none. */
  function Verdict(o: Oracles, call: nat): Option<string> {
    match o.judge(call)
    case None => None
    case Some(answer) => Some(TrimRight(answer))
  }

  predicate Related(rel: string) { rel != "" && rel != "none" }

  /** A verdict is recorded, and is a link of full weight when it says related. */
  function AfterQuestion(o: Oracles, t: Tables, a: int, b: int, call: nat): Tables {
    match Verdict(o, call)
    case None => t
    case Some(rel) => Judge(if Related(rel) then PutLink(t, a, b, rel, 1.0) else t, a, b, Related(rel))
  }

  /** The anchor's candidates asked about in order, from the call-th answer on. */
  function AfterNear(o: Oracles, t: Tables, anchor: int, near: seq<int>, call: nat): Tables {
    if near == [] then t
    else
      var last := |near| - 1;
      AfterQuestion(o, AfterNear(o, t, anchor, near[..last], call), anchor, near[last], call + last)
  }

  function CountRelated(o: Oracles, call: nat, n: nat): nat {
    if n == 0 then 0
    else
      var verdict := Verdict(o, call + n - 1);
      CountRelated(o, call, n - 1) + if verdict.Some? && Related(verdict.value) then 1 else 0
  }

  /** A pair worth asking about: two memories of one owner and one agent, never judged together. */
  predicate Askable(t: Tables, user: int, a: int, b: int) {
    && Owned(t, user, a) && Owned(t, user, b) && a != b && t.memories[a].agent == t.memories[b].agent
    && PairOf(a, b) !in t.judgments
  }

  /** Listed by the index within the band, and worth asking about. */
  ghost predicate IsCandidate(t: Tables, rows: seq<Neighbour>, user: int, anchor: int, floor: real, ceiling: real, id: int)
  {
    Askable(t, user, anchor, id) && Close(t, rows, user, floor, Some(ceiling), id)
  }

  predicate NoRepeats(ids: seq<int>) {
    forall i, j :: 0 <= i < j < |ids| ==> ids[i] != ids[j]
  }

  /** One anchor's turn: the candidates found, all of them put to the judge. */
  datatype Inquiry = Inquiry(anchor: int, before: Tables, call: nat, near: seq<int>) {
    function After(o: Oracles): Tables { AfterNear(o, before, anchor, near, call + 1) }

    function Used(): nat { if anchor in before.vectors then 1 + |near| else 0 }

    function Linked(o: Oracles): nat { CountRelated(o, call + 1, |near|) }
  }

  ghost predicate InquiryOk(o: Oracles, user: int, floor: real, ceiling: real, q: Inquiry) {
    && NoRepeats(q.near)
    && forall id :: id in q.near <==>
      q.anchor in q.before.vectors && IsCandidate(q.before, o.neighbours(q.call), user, q.anchor, floor, ceiling, id)
  }

  function TablesInquired(o: Oracles, start: Tables, inquiries: seq<Inquiry>): Tables {
    if inquiries == [] then start else inquiries[|inquiries| - 1].After(o)
  }

  function CallsInquired(start: nat, inquiries: seq<Inquiry>): nat {
    if inquiries == [] then start else inquiries[|inquiries| - 1].call + inquiries[|inquiries| - 1].Used()
  }

  function LinkedIn(o: Oracles, inquiries: seq<Inquiry>): nat {
    if inquiries == [] then 0
    else LinkedIn(o, inquiries[..|inquiries| - 1]) + inquiries[|inquiries| - 1].Linked(o)
  }

  ghost predicate Inquired(o: Oracles, user: int, floor: real, ceiling: real, start: Tables, call: nat,
                           inquiries: seq<Inquiry>)
  {
    inquiries == [] ||
    var init, last := inquiries[..|inquiries| - 1], inquiries[|inquiries| - 1];
    && Inquired(o, user, floor, ceiling, start, call, init) && InquiryOk(o, user, floor, ceiling, last)
    && last.before == TablesInquired(o, start, init) && last.call == CallsInquired(call, init)
  }

  /**
   Links and judgments only grow: verdicts stand, every link is still there, and
   a link that is new or weighs other than before joins a pair judged related in between.
   */
  ghost predicate Grown(t: Tables, r: Tables) {
    && r == t.(links := r.links, judgments := r.judgments)
    && (forall p :: p in t.judgments ==> p in r.judgments && r.judgments[p] == t.judgments[p])
    && (forall k :: k in t.links ==> k in r.links)
    && forall k :: k in r.links ==>
      || (k in t.links && r.links[k] == t.links[k])
      || (r.links[k] == 1.0 && Pair(k.lo, k.hi) !in t.judgments && Pair(k.lo, k.hi) in r.judgments
          && r.judgments[Pair(k.lo, k.hi)])
  }

  lemma GrownTransitive(a: Tables, b: Tables, c: Tables)
    requires Grown(a, b) && Grown(b, c)
    ensures Grown(a, c)
  {
  }

  lemma QuestionGrows(o: Oracles, t: Tables, a: int, b: int, call: nat)
    requires PairOf(a, b) !in t.judgments
    ensures var r := AfterQuestion(o, t, a, b, call);
      && Grown(t, r)
      && (forall p :: p in r.judgments && p != PairOf(a, b) ==> p in t.judgments)
      && (PairOf(a, b) in r.judgments <==> Verdict(o, call).Some?)
      && (Verdict(o, call).Some? ==> r.judgments[PairOf(a, b)] == (Verdict(o, call).value !in {"", "none"}))
  {
    hide Verdict;
  }

  /** The k-th candidate's verdict, if there is one, is on record for its pair. */
  ghost predicate Recorded(o: Oracles, anchor: int, near: seq<int>, call: nat, k: nat, r: Tables)
    requires k < |near|
  {
    var pair, verdict := PairOf(anchor, near[k]), Verdict(o, call + k);
    && (pair in r.judgments <==> verdict.Some?)
    && (verdict.Some? ==> r.judgments[pair] == (verdict.value != "" && verdict.value != "none"))
  }

  ghost predicate AllRecorded(o: Oracles, anchor: int, near: seq<int>, call: nat, r: Tables) {
    forall k: nat :: k < |near| ==> Recorded(o, anchor, near, call, k, r)
  }

  lemma PairsApart(anchor: int, a: int, b: int)
    requires a != b
    ensures PairOf(anchor, a) != PairOf(anchor, b)
  {
  }

  /** Later verdicts, for other pairs, leave it recorded. */
  lemma RecordedStays(o: Oracles, anchor: int, near: seq<int>, call: nat, k: nat, before: Tables, r: Tables)
    requires k < |near| - 1 && Recorded(o, anchor, near[..|near| - 1], call, k, before)
    requires PairOf(anchor, near[k]) in r.judgments <==> PairOf(anchor, near[k]) in before.judgments
    requires PairOf(anchor, near[k]) in before.judgments ==>
      r.judgments[PairOf(anchor, near[k])] == before.judgments[PairOf(anchor, near[k])]
    ensures Recorded(o, anchor, near, call, k, r)
  {
    hide Verdict, Related, PairOf;
  }

  /** One anchor: the record grows by exactly the verdicts given, each for its own pair. */
  lemma {:induction false} NearGrows(o: Oracles, t: Tables, anchor: int, near: seq<int>, call: nat)
    requires NoRepeats(near) && forall id :: id in near ==> PairOf(anchor, id) !in t.judgments
    ensures var r := AfterNear(o, t, anchor, near, call);
      && Grown(t, r)
      && AllRecorded(o, anchor, near, call, r)
      && (forall p :: p in r.judgments && p !in t.judgments ==> exists id :: id in near && p == PairOf(anchor, id))
  {
    hide Verdict, Related, Grown, PairOf;
    if near == [] {
      GrownSame(t);
    } else {
      var init, last := near[..|near| - 1], near[|near| - 1];
      NearGrows(o, t, anchor, init, call);
      var before, r := AfterNear(o, t, anchor, init, call), AfterNear(o, t, anchor, near, call);
      forall id | id in init ensures PairOf(anchor, id) != PairOf(anchor, last) {
        PairsApart(anchor, id, last);
      }
      assert PairOf(anchor, last) !in before.judgments;
      QuestionGrows(o, before, anchor, last, call + |init|);
      GrownTransitive(t, before, r);
      StandIn(before, r);
      forall k: nat | k < |near| ensures Recorded(o, anchor, near, call, k, r) {
        if k < |init| {
          assert init[k] in init;
          RecordedStays(o, anchor, near, call, k, before, r);
        }
      }
      assert last in near && forall id :: id in init ==> id in near;
    }
  }

  lemma GrownSame(t: Tables)
    ensures Grown(t, t)
  {
  }

  lemma StandIn(t: Tables, r: Tables)
    requires Grown(t, r)
    ensures forall p :: p in t.judgments ==> p in r.judgments && r.judgments[p] == t.judgments[p]
  {
  }

  lemma InquiryGrows(o: Oracles, user: int, floor: real, ceiling: real, q: Inquiry)
    requires InquiryOk(o, user, floor, ceiling, q)
    ensures Grown(q.before, q.After(o))
    ensures AllRecorded(o, q.anchor, q.near, q.call + 1, q.After(o))
    ensures forall p :: p in q.After(o).judgments && p !in q.before.judgments ==>
      exists id :: id in q.near && p == PairOf(q.anchor, id)
  {
    hide Grown, Close, AfterNear;
    NearGrows(o, q.before, q.anchor, q.near, q.call + 1);
  }

  /** Over all anchors links and judgments only grow. */
  lemma {:induction false} InquiriesGrow(o: Oracles, user: int, floor: real, ceiling: real, start: Tables, call: nat,
                                         inquiries: seq<Inquiry>)
    requires Inquired(o, user, floor, ceiling, start, call, inquiries)
    ensures Grown(start, TablesInquired(o, start, inquiries))
  {
    hide Grown, InquiryOk;
    if inquiries == [] {
      GrownSame(start);
    } else {
      var last := inquiries[|inquiries| - 1];
      InquiriesGrow(o, user, floor, ceiling, start, call, inquiries[..|inquiries| - 1]);
      InquiryGrows(o, user, floor, ceiling, last);
      GrownTransitive(start, last.before, last.After(o));
    }
  }

  /** The judge gave this verdict, in answer to the k-th question of the i-th inquiry. */
  ghost predicate GivenAt(o: Oracles, inquiries: seq<Inquiry>, i: nat, k: nat, p: Pair, related: bool) {
    && i < |inquiries| && k < |inquiries[i].near| && p == PairOf(inquiries[i].anchor, inquiries[i].near[k])
    && var verdict := Verdict(o, inquiries[i].call + 1 + k);
       verdict.Some? && related == (verdict.value != "" && verdict.value != "none")
  }

  /** Every verdict given is the one recorded. */
  lemma {:induction false} VerdictsAreRecorded(o: Oracles, user: int, floor: real, ceiling: real, start: Tables, call: nat,
                                               inquiries: seq<Inquiry>, i: nat, k: nat, p: Pair, related: bool)
    requires Inquired(o, user, floor, ceiling, start, call, inquiries) && GivenAt(o, inquiries, i, k, p, related)
    ensures var r := TablesInquired(o, start, inquiries); p in r.judgments && r.judgments[p] == related
  {
    hide Grown, InquiryOk, Verdict, Related, PairOf;
    var init, last := inquiries[..|inquiries| - 1], inquiries[|inquiries| - 1];
    InquiryGrows(o, user, floor, ceiling, last);
    if i < |init| {
      assert GivenAt(o, init, i, k, p, related);
      VerdictsAreRecorded(o, user, floor, ceiling, start, call, init, i, k, p, related);
      StandIn(last.before, last.After(o));
    } else {
      assert Recorded(o, last.anchor, last.near, last.call + 1, k, last.After(o));
    }
  }

  /** Nothing is recorded that the judge did not say. */
  lemma {:induction false} RecordsWereGiven(o: Oracles, user: int, floor: real, ceiling: real, start: Tables, call: nat,
                                            inquiries: seq<Inquiry>, p: Pair) returns (i: nat, k: nat)
    requires Inquired(o, user, floor, ceiling, start, call, inquiries)
    requires p in TablesInquired(o, start, inquiries).judgments && p !in start.judgments
    ensures GivenAt(o, inquiries, i, k, p, TablesInquired(o, start, inquiries).judgments[p])
  {
    hide Grown, InquiryOk, Verdict, Related, PairOf;
    var init, last := inquiries[..|inquiries| - 1], inquiries[|inquiries| - 1];
    InquiryGrows(o, user, floor, ceiling, last);
    if p in last.before.judgments {
      i, k := RecordsWereGiven(o, user, floor, ceiling, start, call, init, p);
      StandIn(last.before, last.After(o));
      assert init[i] == inquiries[i];
    } else {
      var id :| id in last.near && p == PairOf(last.anchor, id);
      i := |init|;
      k :| k < |last.near| && last.near[k] == id;
      assert Recorded(o, last.anchor, last.near, last.call + 1, k, last.After(o));
    }
  }

  /** A question about two memories within reach touches nothing outside. */
  lemma QuestionLeavesOutside(o: Oracles, t: Tables, a: int, b: int, call: nat, user: int, agent: string)
    requires !OutsideIn(t, a, user, agent) && !OutsideIn(t, b, user, agent)
    ensures OutsideUntouched(t, AfterQuestion(o, t, a, b, call), user, agent)
  {
    hide OutsideUntouched, Judge, PutLink;
    NothingOutside(t, user, agent);
    var verdict := Verdict(o, call);
    if verdict.Some? {
      var linked := if Related(verdict.value) then PutLink(t, a, b, verdict.value, 1.0) else t;
      PutLinkLeavesOutside(t, a, b, verdict.value, 1.0, user, agent);
      LinkedRows(t, a, b, verdict.value);
      JudgeLeavesOutside(linked, a, b, Related(verdict.value), user, agent);
      OutsideTransitive(t, linked, Judge(linked, a, b, Related(verdict.value)), user, agent);
    }
  }

  lemma LinkedRows(t: Tables, a: int, b: int, rel: string)
    ensures PutLink(t, a, b, rel, 1.0).memories == t.memories
  {
  }
}
