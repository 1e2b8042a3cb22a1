/**
 The memory store: one object over five tables, each public operation one
 atomic step. The embedder, the clock, SQLite's choice of row ids and of
 neighbours, and the two models that merge and judge are oracles.
 */
module MemoryStore {
  import opened Wrappers
  import opened MemoryTables
  import opened MemoryUpkeep
  import opened Recall

  lemma SomeElement(s: set<int>)
    requires s != {}
    ensures exists id :: id in s
  {
    assert (forall id :: id !in s) ==> s == {};
  }

  /** The same rows, but for the recall count, which has grown by the hits on each. */
  ghost predicate Touched(before: map<int, Memory>, after: map<int, Memory>, hits: seq<int>) {
    && after.Keys == before.Keys
    && forall id :: id in before ==>
      after[id] == before[id].(recallCount := before[id].recallCount + multiset(hits)[id])
  }

  lemma TouchedStep(before: map<int, Memory>, t: Tables, hits: seq<int>, id: int)
    requires Touched(before, t.memories, hits)
    ensures Touched(before, Touch(t, id).memories, hits + [id])
  {
    assert multiset(hits + [id]) == multiset(hits) + multiset{id};
  }

  /** What SQLite answers the queries of one recall. */
  datatype Answers = Answers(
    nearest: seq<Near>,
    keyword: seq<int>,
    links: int -> seq<LinkKey>,
    terms: Option<seq<int>>)

  /** The best of the index's rows for the agent, or the keyword rows when the index has none or cannot answer. */
  ghost predicate IsDirect(t: Tables, user: int, agent: string, k: int, a: Answers, semantic: bool, direct: seq<Hit>)
    requires k > 0
  {
    var byKeyword := IsKeywordHits(t, a.keyword, direct);
    if semantic then
      exists pool :: IsPool(t, user, agent, a.nearest, pool)
        && if pool != [] then direct == Cut(SortDesc(pool), k) else byKeyword
    else byKeyword
  }

  ghost predicate Fit(t: Tables, user: int, agent: string, k: int, a: Answers) {
    && IsNearRows(t, user, k, a.nearest)
    && IsKeywordRows(t, user, agent, k, a.keyword)
    && (forall id :: IsLinkRows(t, user, id, a.links(id)))
    && (a.terms.Some? ==> IsTermRows(t, user, agent, k, a.terms.value))
  }

  lemma ListedStep(t: Tables, rows: seq<Neighbour>, row: Neighbour, user: int, floor: real, ceiling: Option<real>)
    ensures forall id :: Listed(t, rows + [row], user, id) <==>
              Listed(t, rows, user, id) || (id == row.id && id in t.vectors && t.vectors[id].user == user)
    ensures forall id :: Close(t, rows + [row], user, floor, ceiling, id) <==>
              || Close(t, rows, user, floor, ceiling, id)
              || (id == row.id && id in t.vectors && t.vectors[id].user == user && InBand(row, floor, ceiling))
  {
    var all := rows + [row];
    assert all[|rows|] == row && forall k :: 0 <= k < |rows| ==> all[k] == rows[k];
  }

  class MemoryStore {
    const o: Oracles

    var memories: map<int, Memory>
    var vectors: map<int, Vector>
    var links: map<LinkKey, real>
    var judgments: map<Pair, bool>
    var fts: map<int, string>
    var dim: nat
    var partitioned: bool          // the index files vectors by user
    var embedderOk: bool
    var calls: nat                 // oracle answers used up

    function Now(): Tables
      reads this
    {
      Tables(memories, vectors, links, judgments, fts, dim)
    }

    ghost predicate Valid()
      reads this
    {
      Consistent(Now()) && FreshIds(o) && DistinctRows(o) && (dim != 0 ==> partitioned)
    }

    /** A database as it is found. An index from before there were partitions is rebuilt, and its vectors are lost. */
    constructor Open(o: Oracles, t: Tables, partitioned: bool)
      requires FreshIds(o) && DistinctRows(o)
      requires MemoriesOk(t) && LinksOk(t) && JudgmentsOk(t) && FtsOk(t)
      requires (partitioned ==> VectorsOk(t)) && (t.dim == 0 ==> t.vectors == map[])
      ensures Valid() && this.o == o && calls == 0
      ensures Now() == if t.dim != 0 && !partitioned then t.(vectors := map[]) else t
    {
      this.o := o;
      memories, vectors, links, judgments, fts, dim := t.memories, t.vectors, t.links, t.judgments, t.fts, t.dim;
      this.partitioned := partitioned;
      embedderOk, calls := true, 0;
      new;
      EmptiedKeeps(t);
      hide Consistent, MemoriesOk, LinksOk, JudgmentsOk, FtsOk, VectorsOk, FreshIds, DistinctRows;
      if dim != 0 { EnsureVecTable(dim); }
      assert Now() == if t.dim != 0 && !partitioned then t.(vectors := map[]) else t;
    }

    // ── Vectors ──

    method TryEmbed(text: string) returns (vec: Option<seq<real>>)
      modifies this`embedderOk, this`calls
      ensures vec == VectorAt(o, old(calls))
      ensures calls == old(calls) + if o.hasEmbedder then 1 else 0
      ensures embedderOk == if o.hasEmbedder then o.embed(old(calls)).Embedded? else old(embedderOk)
    {
      if !o.hasEmbedder { return None; }
      var outcome := o.embed(calls);
      calls := calls + 1;
      match outcome {
        case Embedded(v) =>
          embedderOk := true;
          return if v == [] then None else Some(v);
        case Unavailable =>
          embedderOk := false;
          return None;
      }
    }

    /** Sizes the index on first use; another size, or an index without partitions, loses every vector in it. */
    method EnsureVecTable(size: nat)
      requires size > 0
      modifies this`vectors, this`dim, this`partitioned
      ensures dim == size && partitioned
      ensures vectors ==
        if (old(dim) != 0 && old(dim) != size) || !old(partitioned) then map[] else old(vectors)
    {
      if dim == size && partitioned { return; }
      if dim != 0 && dim != size { vectors := map[]; }
      else if !partitioned { vectors := map[]; }
      partitioned := true;
      dim := size;
    }

    method InsertVector(user: int, id: int, vec: seq<real>)
      requires Valid() && Owned(Now(), user, id) && vec != []
      modifies this`vectors, this`dim, this`partitioned
      ensures Valid() && Now() == PutVector(old(Now()), user, id, vec)
    {
      PutVectorKeeps(Now(), user, id, vec);
      NoVectorsYet(Now());
      EnsureVecTable(|vec|);
      vectors := vectors - {id};
      vectors := vectors[id := Vector(user, vec)];
      assert Now() == PutVector(old(Now()), user, id, vec);
    }

    // ── Remembering and forgetting ──

    /** INSERT OR IGNORE, then the id of the row that holds the fact. */
    method InsertOrFind(m: Memory) returns (id: int, inserted: bool)
      requires Valid() && m.user > 0 && m.agent != "" && m.text != ""
      modifies this`memories, this`fts
      ensures Valid() && Holds(Now(), id, m.user, m.agent, m.text)
      ensures inserted <==> !exists other :: Holds(old(Now()), other, m.user, m.agent, m.text)
      ensures inserted ==> id !in old(memories) && id > 0 && Now() == Insert(old(Now()), id, m)
      ensures !inserted ==> Now() == old(Now())
    {
      if other :| other in memories && SameFact(memories[other], m) {
        assert Holds(Now(), other, m.user, m.agent, m.text);
        return other, false;
      }
      id := o.newId(memories.Keys);
      InsertKeeps(Now(), id, m);
      memories := memories[id := m];
      fts := fts[id := m.text];
      assert Now() == Insert(old(Now()), id, m);
      return id, true;
    }

    /** None is the exception on an empty fact or no user. */
    method Remember(user: int, agent: string, text: string, source: string, now: int) returns (id: Option<int>)
      requires Valid()
      modifies this
      ensures Valid()
      ensures id.None? <==> agent == "" || text == "" || user <= 0
      ensures id.None? ==> Now() == old(Now())
      ensures id.Some? ==> Holds(Now(), id.value, user, agent, text)
      ensures id.Some? && (exists other :: Holds(old(Now()), other, user, agent, text)) ==> Now() == old(Now())
      ensures id.Some? && !(exists other :: Holds(old(Now()), other, user, agent, text)) ==>
        var t := Insert(old(Now()), id.value, Memory(user, agent, text, source, now, 0));
        && id.value !in old(memories)
        && Now() == match VectorAt(o, old(calls))
                    case Some(v) => PutVector(t, user, id.value, v)
                    case None => t
    {
      if agent == "" || text == "" { return None; }
      if user <= 0 { return None; }
      var vec := TryEmbed(text);
      var row, inserted := InsertOrFind(Memory(user, agent, text, source, now, 0));
      if inserted && vec.Some? { InsertVector(user, row, vec.value); }
      return Some(row);
    }

    /** DELETE with its trigger and its cascades, then the vector. */
    method Delete(id: int)
      requires Valid()
      modifies this`memories, this`fts, this`links, this`judgments, this`vectors
      ensures Valid() && Now() == Remove(old(Now()), {id})
    {
      RemoveKeeps(Now(), {id});
      memories := Without(memories, {id});
      fts := Without(fts, {id});
      links := LinksWithout(links, {id});
      judgments := JudgmentsWithout(judgments, {id});
      vectors := Without(vectors, {id});
      assert Now() == Remove(old(Now()), {id});
    }

    /** A stranger's memory and a missing one are refused alike, and neither refusal changes anything. */
    method Forget(user: int, id: int) returns (deleted: bool)
      requires Valid()
      modifies this`memories, this`fts, this`links, this`judgments, this`vectors
      ensures Valid()
      ensures deleted <==> Owned(old(Now()), user, id)
      ensures Now() == if deleted then Remove(old(Now()), {id}) else old(Now())
    {
      if id in memories && memories[id].user == user {
        Delete(id);
        return true;
      }
      return false;
    }

    // ── Links ──

    method LinkMemories(user: int, a: int, b: int, rel: string, weight: real) returns (linked: bool)
      requires Valid()
      modifies this`links
      ensures Valid()
      ensures linked <==>
        && user > 0 && a > 0 && b > 0 && a != b && rel != "" && weight > 0.0
        && Owned(Now(), user, a) && Owned(Now(), user, b)
      ensures Now() == if linked then PutLink(old(Now()), a, b, rel, weight) else old(Now())
    {
      if user <= 0 || a <= 0 || b <= 0 || a == b { return false; }
      if rel == "" { return false; }
      if weight <= 0.0 { return false; }
      if !(a in memories && memories[a].user == user && b in memories && memories[b].user == user) { return false; }
      PutLinkKeeps(Now(), user, a, b, rel, weight);
      links := links[LinkKey(Low(a, b), High(a, b), rel) := if weight > 1.0 then 1.0 else weight];
      assert Now() == PutLink(old(Now()), a, b, rel, weight);
      return true;
    }

    method UnlinkMemories(user: int, a: int, b: int, rel: string) returns (unlinked: bool)
      requires Valid()
      modifies this`links
      ensures Valid()
      ensures unlinked <==>
        user > 0 && LinkKey(Low(a, b), High(a, b), rel) in old(links) && Owned(Now(), user, a) && Owned(Now(), user, b)
      ensures Now() == if unlinked then DropLink(old(Now()), a, b, rel) else old(Now())
    {
      if user <= 0 { return false; }
      var key := LinkKey(Low(a, b), High(a, b), rel);
      if key in links && key.lo in memories && memories[key.lo].user == user {
        DropLinkKeeps(Now(), a, b, rel);
        assert OneOwner(Now(), key.lo, key.hi);
        links := Without(links, {key});
        assert Now() == DropLink(old(Now()), a, b, rel);
        return true;
      }
      return false;
    }

    // ── Upkeep ──

    /** Deletes what was never deliberately kept and never recalled. A negative age disables it. */
    method PruneStale(user: Option<int>, agent: string, afterDays: int, now: int) returns (pruned: nat)
      requires Valid()
      modifies this`memories, this`fts, this`links, this`judgments, this`vectors
      ensures Valid()
      ensures var stale := Prunable(old(Now()), user, agent, afterDays, now);
              Now() == Remove(old(Now()), stale) && pruned == |stale|
      ensures forall id :: id in memories ==> id in old(memories) && memories[id] == old(memories)[id]
      ensures forall id :: id in old(memories) ==> var m := old(memories)[id];
        (id !in memories <==>
          && afterDays >= 0 && m.source == "auto" && m.recallCount == 0 && m.createdAt + afterDays * 86400 <= now
          && (user.Some? ==> m.user == user.value) && (agent != "" ==> m.agent == agent))
    {
      forall id | id in memories { PruneDecides(Now(), user, agent, afterDays, now, id); }
      PruneOnlyRemoves(Now(), Prunable(Now(), user, agent, afterDays, now));
      RemoveNone(Now());
      hide Valid, Consistent, Remove, IsStale;
      if afterDays < 0 { return 0; }
      var stale := set id | id in memories && IsStale(memories[id], user, agent, now - afterDays * 86400);
      DeleteAll(stale);
      return |stale|;
    }

    method DeleteAll(ids: set<int>)
      requires Valid()
      modifies this`memories, this`fts, this`links, this`judgments, this`vectors
      ensures Valid() && Now() == Remove(old(Now()), ids)
    {
      hide Consistent, FreshIds, DistinctRows, Remove;
      RemoveNone(Now());
      var left := ids;
      ghost var gone: set<int> := {};
      while left != {}
        invariant Valid() && gone + left == ids && Now() == Remove(old(Now()), gone)
        decreases left
      {
        SomeElement(left);
        var id: int :| id in left;
        Delete(id);
        RemoveTwice(old(Now()), gone, {id});
        left, gone := left - {id}, gone + {id};
      }
      assert gone == ids;
    }

    /** Recalled memories are counted, which is what keeps pruning off them. */
    method TouchRecalled(hits: seq<int>)
      requires Valid()
      modifies this`memories
      ensures Valid() && Touched(old(memories), memories, hits)
    {
      hide Consistent, Touched, Touch;
      NothingTouched(memories);
      for k := 0 to |hits|
        invariant Valid() && Touched(old(memories), memories, hits[..k])
      {
        TouchKeeps(Now(), hits[k]);
        TouchedStep(old(memories), Now(), hits[..k], hits[k]);
        assert hits[..k + 1] == hits[..k] + [hits[k]];
        TouchOne(hits[k]);
      }
      assert hits[..|hits|] == hits;
    }

    /**
     Gives memories without a vector one, until the endpoint fails: each the
     vector of its own call. `missing` is the answer to the query for them.
     */
    method BackfillEmbeddings(missing: seq<int>) returns (done: nat)
      requires Valid() && Elements(missing) <= Unvectored(Now())
      modifies this`vectors, this`dim, this`partitioned, this`embedderOk, this`calls
      ensures Valid() && done <= |missing|
      ensures Now() == Filled(o, old(Now()), missing, old(calls), done)
      ensures forall k :: 0 <= k < done ==> VectorCame(o, old(calls), k)
      ensures done < |missing| ==> !VectorCame(o, old(calls), done)
    {
      hide Consistent, FreshIds, DistinctRows;
      done := 0;
      if !o.hasEmbedder { return; }
      while done < |missing|
        invariant Valid() && done <= |missing| && calls == old(calls) + done
        invariant Now() == Filled(o, old(Now()), missing, old(calls), done)
        invariant forall k :: 0 <= k < done ==> VectorCame(o, old(calls), k)
      {
        var id := missing[done];
        assert id in Elements(missing);
        var vec := TryEmbed(memories[id].text);
        if vec.None? { return; }
        InsertVector(memories[id].user, id, vec.value);
        done := done + 1;
      }
    }

    // ── Consolidation ──

    /** The seed's near neighbours among its owner's memories of the same agent, none claimed already. */
    method Cluster(user: int, seed: int, floor: real, claimed: set<int>) returns (cluster: seq<int>)
      requires Valid() && Owned(Now(), user, seed)
      modifies this`calls
      ensures calls == old(calls) + 1
      ensures forall id :: id in cluster <==> InCluster(Now(), o.neighbours(old(calls)), user, seed, floor, claimed, id)
    {
      hide InBand;
      VectorsAreOwned(Now());
      var rows := o.neighbours(calls);
      calls := calls + 1;
      cluster := [];
      var seedAgent := "";
      for k := 0 to |rows|
        invariant calls == old(calls) + 1
        invariant seedAgent == if Listed(Now(), rows[..k], user, seed) then memories[seed].agent else ""
        invariant forall id :: id in cluster <==> Close(Now(), rows[..k], user, floor, None, id) && id !in claimed
      {
        var id := rows[k].id;
        assert rows[..k + 1] == rows[..k] + [rows[k]];
        ListedStep(Now(), rows[..k], rows[k], user, floor, None);
        if id in vectors && vectors[id].user == user {
          if id == seed { seedAgent := memories[id].agent; }
          if id !in claimed && InBand(rows[k], floor, None) { cluster := cluster + [id]; }
        }
      }
      assert rows[..|rows|] == rows;
      ghost var near := cluster;
      forall k | 0 <= k < |near| ensures near[k] in memories {
        var id := near[k];
        assert id in near;
        assert Close(Now(), rows, user, floor, None, id);
      }
      cluster := OfAgent(cluster, seedAgent);
      forall id ensures id in cluster <==> InCluster(Now(), rows, user, seed, floor, claimed, id) {
        if id in near { RowsAreReal(Now(), id); }
      }
    }

    method OfAgent(ids: seq<int>, agent: string) returns (kept: seq<int>)
      requires Valid() && forall k :: 0 <= k < |ids| ==> ids[k] in memories
      ensures forall id :: id in kept <==> id in ids && memories[id].agent == agent
    {
      kept := [];
      for k := 0 to |ids|
        invariant forall id :: id in kept <==> id in ids[..k] && memories[id].agent == agent
      {
        assert ids[..k + 1] == ids[..k] + [ids[k]];
        if memories[ids[k]].agent == agent { kept := kept + [ids[k]]; }
      }
      assert ids[..|ids|] == ids;
    }

    /** One merge, as one transaction: exactly the tables that Merged says. */
    method MergeCluster(user: int, agent: string, cluster: seq<int>, text: string, now: int) returns (ghost m: Merge)
      requires Valid() && user > 0 && agent != "" && text != ""
      requires forall id :: id in cluster ==> Owned(Now(), user, id) && memories[id].agent == agent
      modifies this
      ensures Valid() && ProperMerge(old(Now()), user, m) && Now() == Merged(old(Now()), user, now, m)
      ensures m.agent == agent && m.cluster == Elements(cluster) && m.text == text
      ensures m.vector == VectorAt(o, old(calls)) && calls == old(calls) + if o.hasEmbedder then 1 else 0
    {
      hide Consistent, FreshIds, DistinctRows, Remove, PutVector;
      var vec := TryEmbed(text);
      var kept, inserted := InsertOrFind(Memory(user, agent, text, "consolidated", now, 0));
      m := Merge(agent, Elements(cluster), kept, text, vec);
      DeleteAllBut(cluster, kept);
      if vec.Some? {
        assert Owned(Now(), user, kept) by { RemoveSpares(old(Now()), user, now, m); }
        InsertVector(user, kept, vec.value);
      }
    }

    method DeleteAllBut(ids: seq<int>, kept: int)
      requires Valid()
      modifies this`memories, this`fts, this`links, this`judgments, this`vectors
      ensures Valid() && Now() == Remove(old(Now()), Elements(ids) - {kept})
    {
      hide Consistent, FreshIds, DistinctRows, Remove;
      RemoveNone(Now());
      assert Elements(ids[..0]) - {kept} == {};
      for k := 0 to |ids|
        invariant Valid() && Now() == Remove(old(Now()), Elements(ids[..k]) - {kept})
      {
        ghost var before := Elements(ids[..k]) - {kept};
        assert ids[..k + 1] == ids[..k] + [ids[k]];
        if ids[k] != kept {
          Delete(ids[k]);
          RemoveTwice(old(Now()), before, {ids[k]});
          assert Elements(ids[..k + 1]) - {kept} == before + {ids[k]};
        } else {
          assert Elements(ids[..k + 1]) - {kept} == before;
        }
      }
      assert ids[..|ids|] == ids;
    }

    /**
     Merges near-duplicates cluster by cluster, then prunes. `candidates` are the
     user's memories with vectors, each of which gets its round until enough
     clusters were seen. A memory no merge took and no prune may take is as it
     was, and no memory takes part in two merges. Nobody else's rows, links and
     judgments change; their vectors stay exactly while every merged text's fits.
     */
    method Consolidate(user: int, agent: string, floor: real, maxClusters: nat, afterDays: int, now: int,
                       candidates: seq<int>) returns (report: Report, ghost rounds: seq<Round>)
      requires Valid() && user >= 0
      requires forall k :: 0 <= k < |candidates| ==>
        Owned(Now(), user, candidates[k]) && !Outside(memories[candidates[k]], user, agent)
      modifies this
      ensures Valid() && OutsideUntouched(old(Now()), Now(), user, agent)
      ensures Ran(o, user, floor, now, old(Now()), old(calls), rounds)
      ensures |rounds| <= |candidates| && forall k :: 0 <= k < |rounds| ==> rounds[k].seed == candidates[k]
      ensures if o.hasEmbedder && old(embedderOk) && old(dim) != 0
              then |rounds| == |candidates| || report.seen == maxClusters else rounds == []
      ensures report.seen <= maxClusters
      ensures var merged := TablesAfter(user, now, old(Now()), rounds);
        var stale := Prunable(merged, Some(user), agent, afterDays, now);
        && Now() == Remove(merged, stale) && calls == CallsAfter(o, old(calls), rounds)
        && report == ReportAfter(o, rounds).(pruned := |stale|)
      ensures forall id :: id in old(memories) && id !in MergedIn(rounds) ==>
        var m := old(memories)[id];
        if && afterDays >= 0 && m.source == "auto" && m.recallCount == 0 && m.createdAt + afterDays * 86400 <= now
           && m.user == user && (agent != "" ==> m.agent == agent)
        then id !in memories else id in memories && memories[id] == m
      ensures forall i, j :: 0 <= i < j < |rounds| ==> rounds[i].MergedIds() !! rounds[j].MergedIds()
      ensures forall id :: id in old(vectors) && OutsideIn(old(Now()), id, user, agent) ==>
        (VectorKept(old(Now()), Now(), id) <==> AllFit(rounds, old(dim)))
    {
      hide Consistent, FreshIds, DistinctRows, OutsideUntouched, RoundOk, Ran, Remove, IsStale, Outside, VectorKept,
           AllFit;
      ghost var start, call := Now(), calls;
      report, rounds := MergeRounds(user, agent, floor, maxClusters, now, candidates);
      ghost var merged := Now();
      var pruned := PruneStale(Some(user), agent, afterDays, now);
      PruneLeavesOutside(merged, user, agent, afterDays, now);
      OutsideTransitive(start, merged, Now(), user, agent);
      report := report.(pruned := pruned);
      forall id | id in start.memories && id !in MergedIn(rounds)
        ensures var m := start.memories[id];
          if && afterDays >= 0 && m.source == "auto" && m.recallCount == 0 && m.createdAt + afterDays * 86400 <= now
             && m.user == user && (agent != "" ==> m.agent == agent)
          then id !in memories else id in memories && memories[id] == m
      {
        UnmergedSurvives(o, user, floor, now, start, call, rounds, id);
        assert merged.memories[id] == start.memories[id];
        PruneDecides(merged, Some(user), agent, afterDays, now, id);
      }
      forall i, j | 0 <= i < j < |rounds| ensures rounds[i].MergedIds() !! rounds[j].MergedIds() {
        ClustersApart(o, user, floor, now, start, call, rounds, i, j);
      }
      forall id | id in start.vectors && OutsideIn(start, id, user, agent)
        ensures VectorKept(start, Now(), id) <==> AllFit(rounds, start.dim)
      {
        OutsideVectors(o, user, floor, now, start, call, rounds, agent, afterDays, id);
      }
    }

    /** Each candidate's round, until enough clusters were seen; none without vectors to compare. */
    method MergeRounds(user: int, agent: string, floor: real, maxClusters: nat, now: int, candidates: seq<int>)
      returns (report: Report, ghost rounds: seq<Round>)
      requires Valid() && user >= 0
      requires forall k :: 0 <= k < |candidates| ==>
        Owned(Now(), user, candidates[k]) && !Outside(memories[candidates[k]], user, agent)
      modifies this
      ensures Valid() && OutsideUntouched(old(Now()), Now(), user, agent)
      ensures Ran(o, user, floor, now, old(Now()), old(calls), rounds) && OfAgentOnly(rounds, agent)
      ensures Now() == TablesAfter(user, now, old(Now()), rounds) && calls == CallsAfter(o, old(calls), rounds)
      ensures |rounds| <= |candidates| && forall k :: 0 <= k < |rounds| ==> rounds[k].seed == candidates[k]
      ensures if o.hasEmbedder && old(embedderOk) && old(dim) != 0
              then |rounds| == |candidates| || report.seen == maxClusters else rounds == []
      ensures report == ReportAfter(o, rounds) && report.seen <= maxClusters
    {
      hide Consistent, FreshIds, DistinctRows, OutsideUntouched, RoundOk, Ran, Outside;
      ghost var start, call := Now(), calls;
      report, rounds := Report(0, 0, 0, 0), [];
      NothingOutside(start, user, agent);
      RanNothing(o, user, floor, now, start, call);
      if o.hasEmbedder && embedderOk && dim != 0 {
        var claimed: set<int> := {};
        for k := 0 to |candidates|
          invariant Valid() && OutsideUntouched(start, Now(), user, agent)
          invariant Ran(o, user, floor, now, start, call, rounds) && Now() == TablesAfter(user, now, start, rounds)
          invariant |rounds| == k && forall j :: 0 <= j < k ==> rounds[j].seed == candidates[j]
          invariant calls == CallsAfter(o, call, rounds) && claimed == Claimed(rounds)
          invariant report == ReportAfter(o, rounds) && report.seen <= maxClusters && OfAgentOnly(rounds, agent)
        {
          if report.seen >= maxClusters { break; }
          ghost var round: Round;
          report, claimed, round := ConsolidateSeed(user, agent, floor, now, candidates[k], claimed, report, start);
          RanOneMore(o, user, floor, now, start, call, rounds, round);
          rounds := rounds + [round];
        }
      }
    }

    /** One seed: its cluster, if it has one, goes to the merge model and is merged unless that declines. */
    method ConsolidateSeed(user: int, agent: string, floor: real, now: int, seed: int, claimed0: set<int>,
                           report0: Report, ghost start: Tables)
      returns (report: Report, claimed: set<int>, ghost r: Round)
      requires Valid() && OutsideUntouched(start, Now(), user, agent)
      requires Owned(start, user, seed) && !Outside(start.memories[seed], user, agent)
      modifies this
      ensures Valid() && OutsideUntouched(start, Now(), user, agent)
      ensures RoundOk(o, user, floor, r) && r.seed == seed && r.before == old(Now())
      ensures r.claimed == claimed0 && r.call == old(calls)
      ensures Now() == r.After(user, now) && calls == old(calls) + r.Used(o)
      ensures claimed == claimed0 + r.Taken() && report == Counted(o, report0, r)
      ensures r.merge.Some? ==> agent == "" || r.merge.value.agent == agent
    {
      hide Consistent, FreshIds, DistinctRows, InCluster, Merged, ProperMerge, Outside;
      report, claimed := report0, claimed0;
      r := Round(seed, Now(), claimed0, calls, [], None);
      NoCluster(Now(), o.neighbours(calls), user, seed, floor, claimed0);
      if seed in claimed || seed !in vectors { return; }
      VectorsAreOwned(Now());
      SeedIsNotOutside(start, Now(), seed, user, agent);
      hide OutsideUntouched;
      var cluster := Cluster(user, seed, floor, claimed);
      r := r.(cluster := cluster);
      if |cluster| < 2 { return; }
      hide RoundOk;
      claimed := claimed + Elements(cluster);
      report, r := AskMerge(user, agent, floor, now, seed, cluster, report0, r, start);
    }

    /** The cluster goes to the merge model, whose call may fail and who may decline. */
    method AskMerge(user: int, agent: string, floor: real, now: int, seed: int, cluster: seq<int>, report0: Report,
                    ghost r0: Round, ghost start: Tables) returns (report: Report, ghost r: Round)
      requires Valid() && OutsideUntouched(start, Now(), user, agent)
      requires Owned(Now(), user, seed) && !Outside(memories[seed], user, agent) && seed in vectors
      requires r0 == Round(seed, Now(), r0.claimed, r0.call, cluster, None) && r0.Asked()
      requires seed !in r0.claimed && calls == r0.call + 1
      requires forall id :: id in cluster <==>
        InCluster(Now(), o.neighbours(r0.call), user, seed, floor, r0.claimed, id)
      modifies this
      ensures Valid() && OutsideUntouched(start, Now(), user, agent)
      ensures r == r0.(merge := r.merge) && RoundOk(o, user, floor, r)
      ensures Now() == r.After(user, now) && calls == r.call + r.Used(o) && report == Counted(o, report0, r)
      ensures r.merge.Some? ==> agent == "" || r.merge.value.agent == agent
    {
      hide Consistent, FreshIds, DistinctRows, InCluster, Merged, ProperMerge, OutsideUntouched, Outside, VectorAt;
      report, r := report0.(seen := report0.seen + 1), r0;
      var answer := o.merge(calls);
      calls := calls + 1;
      if answer.None? { return; }
      if answer.value == "" || "KEEP ALL" <= answer.value {
        report := report.(kept := report.kept + 1);
        return;
      }
      ClusterIsOfAgent(Now(), o.neighbours(r.call), user, seed, floor, r.claimed, cluster);
      ghost var m := MergeWithin(user, agent, seed, cluster, answer.value, now, start);
      r := r.(merge := Some(m));
      report := report.(merged := report.merged + |cluster|);
    }

    /** A merge that reaches no further than the seed's agent. */
    method MergeWithin(user: int, agent: string, seed: int, cluster: seq<int>, text: string, now: int, ghost start: Tables)
      returns (ghost m: Merge)
      requires Valid() && OutsideUntouched(start, Now(), user, agent) && text != ""
      requires Owned(Now(), user, seed) && !Outside(memories[seed], user, agent)
      requires forall id :: id in cluster ==> Owned(Now(), user, id) && memories[id].agent == memories[seed].agent
      modifies this
      ensures Valid() && OutsideUntouched(start, Now(), user, agent)
      ensures ProperMerge(old(Now()), user, m) && Now() == Merged(old(Now()), user, now, m)
      ensures m.agent == old(memories)[seed].agent && m.cluster == Elements(cluster) && m.text == text
      ensures agent == "" || m.agent == agent
      ensures m.vector == VectorAt(o, old(calls)) && calls == old(calls) + if o.hasEmbedder then 1 else 0
    {
      RowsAreReal(Now(), seed);
      hide Consistent, FreshIds, DistinctRows, OutsideUntouched, ProperMerge, Merged, VectorAt;
      ghost var before := Now();
      m := MergeCluster(user, memories[seed].agent, cluster, text, now);
      MergedLeavesOutside(before, user, now, m);
      if agent == "" { OutsideOfAll(before, Now(), user, m.agent); }
      OutsideTransitive(start, before, Now(), user, agent);
    }

    // ── Judging links ──

    /** The anchor's neighbours worth asking about: same agent, inside the band, never judged with it. */
    method Candidates(user: int, anchor: int, floor: real, ceiling: real) returns (near: seq<int>)
      requires Valid() && Owned(Now(), user, anchor)
      modifies this`calls
      ensures calls == old(calls) + 1 && NoRepeats(near)
      ensures forall id :: id in near <==> IsCandidate(Now(), o.neighbours(old(calls)), user, anchor, floor, ceiling, id)
    {
      VectorsAreOwned(Now());
      ghost var t := Now();
      var rows := o.neighbours(calls);
      calls := calls + 1;
      near := [];
      hide Consistent, FreshIds, InBand;
      for k := 0 to |rows|
        invariant Now() == t && NoRepeats(near) && calls == old(calls) + 1
        invariant forall id :: id in near <==>
          Askable(t, user, anchor, id) && Close(t, rows[..k], user, floor, Some(ceiling), id)
      {
        var id := rows[k].id;
        assert rows[..k + 1] == rows[..k] + [rows[k]];
        ListedStep(t, rows[..k], rows[k], user, floor, Some(ceiling));
        NotListedYet(o, old(calls), t, user, floor, ceiling, k);
        VectorIsOwned(t, id);
        if !(id in vectors && vectors[id].user == user) || id == anchor { continue; }
        if memories[id].agent != memories[anchor].agent { continue; }
        if !InBand(rows[k], floor, Some(ceiling)) { continue; }
        if PairOf(anchor, id) in judgments { continue; }
        near := near + [id];
      }
      assert rows[..|rows|] == rows;
    }

    /** Asks the judge about the two. A failed call leaves no record; any verdict does. */
    method JudgePair(user: int, anchor: int, other: int) returns (linked: bool)
      requires Valid() && Owned(Now(), user, anchor) && Owned(Now(), user, other) && anchor != other
      requires memories[anchor].agent == memories[other].agent
      modifies this`calls, this`links, this`judgments
      ensures Valid() && calls == old(calls) + 1
      ensures Now() == AfterQuestion(o, old(Now()), anchor, other, old(calls))
      ensures linked <==> Verdict(o, old(calls)).Some? && Verdict(o, old(calls)).value !in {"", "none"}
    {
      RowsAreReal(Now(), anchor);
      RowsAreReal(Now(), other);
      hide Consistent, FreshIds, DistinctRows, TrimRight;
      var answer := o.judge(calls);
      calls := calls + 1;
      if answer.None? { return false; }
      var rel := TrimRight(answer.value);
      linked := false;
      if Related(rel) { linked := LinkMemories(user, anchor, other, rel, 1.0); }
      Record(anchor, other, Related(rel));
    }

    method Record(a: int, b: int, related: bool)
      requires Valid() && OneOwner(Now(), a, b) && a != b && memories[a].agent == memories[b].agent
      modifies this`judgments
      ensures Valid() && Now() == Judge(old(Now()), a, b, related)
    {
      hide Consistent, FreshIds, DistinctRows;
      JudgeKeeps(Now(), a, b, related);
      judgments := judgments[PairOf(a, b) := related];
      assert Now() == Judge(old(Now()), a, b, related);
    }

    /**
     Puts each anchor's near neighbours to the judge. Every verdict given is the
     one recorded, none was asked for twice, verdicts and links from before
     stand, and what is linked anew was judged related.
     */
    method BackfillLinks(user: int, agent: string, floor: real, ceiling: real, anchors: seq<int>)
      returns (linked: nat, ghost inquiries: seq<Inquiry>)
      requires Valid() && user >= 0
      requires forall k :: 0 <= k < |anchors| ==>
        Owned(Now(), user, anchors[k]) && !Outside(memories[anchors[k]], user, agent)
      modifies this`calls, this`links, this`judgments
      ensures Valid() && OutsideUntouched(old(Now()), Now(), user, agent)
      ensures Inquired(o, user, floor, ceiling, old(Now()), old(calls), inquiries)
      ensures Now() == TablesInquired(o, old(Now()), inquiries) && calls == CallsInquired(old(calls), inquiries)
      ensures if o.hasEmbedder && embedderOk && dim != 0
              then |inquiries| == |anchors| && forall k :: 0 <= k < |anchors| ==> inquiries[k].anchor == anchors[k]
              else inquiries == []
      ensures linked == LinkedIn(o, inquiries)
      ensures Grown(old(Now()), Now())
      ensures forall i, k, p, related :: GivenAt(o, inquiries, i, k, p, related) ==>
        p in judgments && judgments[p] == related
      ensures forall p :: p in judgments && p !in old(judgments) ==>
        exists i, k :: GivenAt(o, inquiries, i, k, p, judgments[p])
    {
      hide Consistent, FreshIds, DistinctRows, OutsideUntouched, InquiryOk, Inquired, Grown, GivenAt;
      linked, inquiries := 0, [];
      ghost var start, call := Now(), calls;
      NothingOutside(start, user, agent);
      InquiredNothing(o, user, floor, ceiling, start, call);
      if o.hasEmbedder && embedderOk && dim != 0 {
        for k := 0 to |anchors|
          invariant Valid() && OutsideUntouched(start, Now(), user, agent)
          invariant Inquired(o, user, floor, ceiling, start, call, inquiries)
          invariant Now() == TablesInquired(o, start, inquiries) && calls == CallsInquired(call, inquiries)
          invariant |inquiries| == k && forall j :: 0 <= j < k ==> inquiries[j].anchor == anchors[j]
          invariant linked == LinkedIn(o, inquiries)
        {
          ghost var q: Inquiry;
          linked, q := JudgeAnchor(user, agent, floor, ceiling, anchors[k], linked, start);
          InquiredOneMore(o, user, floor, ceiling, start, call, inquiries, q);
          inquiries := inquiries + [q];
        }
      }
      InquiriesGrow(o, user, floor, ceiling, start, call, inquiries);
      forall i, k, p, related | GivenAt(o, inquiries, i, k, p, related)
        ensures p in judgments && judgments[p] == related
      {
        VerdictsAreRecorded(o, user, floor, ceiling, start, call, inquiries, i, k, p, related);
      }
      forall p | p in judgments && p !in start.judgments
        ensures exists i, k :: GivenAt(o, inquiries, i, k, p, judgments[p])
      {
        var i, k := RecordsWereGiven(o, user, floor, ceiling, start, call, inquiries, p);
      }
    }

    /** One anchor: each of its candidates is put to the judge, who may fail. */
    method JudgeAnchor(user: int, agent: string, floor: real, ceiling: real, anchor: int, linked0: nat, ghost start: Tables)
      returns (linked: nat, ghost q: Inquiry)
      requires Valid() && OutsideUntouched(start, Now(), user, agent)
      requires Owned(Now(), user, anchor) && !Outside(memories[anchor], user, agent)
      modifies this`calls, this`links, this`judgments
      ensures Valid() && OutsideUntouched(start, Now(), user, agent)
      ensures InquiryOk(o, user, floor, ceiling, q) && q.anchor == anchor && q.before == old(Now()) && q.call == old(calls)
      ensures Now() == q.After(o) && calls == old(calls) + q.Used() && linked == linked0 + q.Linked(o)
    {
      hide Consistent, FreshIds, DistinctRows, OutsideUntouched, Close, Verdict, AfterQuestion;
      linked := linked0;
      q := Inquiry(anchor, Now(), calls, []);
      if anchor !in vectors { return; }
      ghost var t, call := Now(), calls + 1;
      var near := Candidates(user, anchor, floor, ceiling);
      q := q.(near := near);
      for k := 0 to |near|
        invariant Valid() && OutsideUntouched(start, Now(), user, agent)
        invariant calls == call + k && Now() == AfterNear(o, t, anchor, near[..k], call)
        invariant linked == linked0 + CountRelated(o, call, k)
      {
        assert near[k] in near && near[..k + 1][..k] == near[..k];
        ghost var before := Now();
        QuestionLeavesOutside(o, before, anchor, near[k], calls, user, agent);
        var newly := JudgePair(user, anchor, near[k]);
        linked := linked + if newly then 1 else 0;
        OutsideTransitive(start, before, Now(), user, agent);
      }
      assert near[..|near|] == near;
    }

    // ── Recalling ──

    /**
     At most k memories of the caller's, best first. With every similarity above
     zero the best direct hit leads, a memory reached over a link stands below
     the hit it was reached from, and term matches stand below everything else
     and push nothing out. Recalling changes nothing but the recall counts.
     */
    method RecallMemories(user: int, agent: string, query: string, k: int, touch: bool, a: Answers)
      returns (hits: seq<Hit>, ghost s: Sources)
      requires Valid() && Fit(Now(), user, agent, k, a)
      modifies this`memories, this`embedderOk, this`calls
      ensures Valid()
      ensures query == "" || k <= 0 || user <= 0 ==> hits == [] && memories == old(memories)
      ensures !(query == "" || k <= 0 || user <= 0) ==>
        && |hits| <= k && Distinct(hits) && AllMine(old(Now()), user, agent, hits) && Descending(hits)
        && hits == Cut(SortDesc(s.All()), k)
        && IsDirect(old(Now()), user, agent, k, a,
                    VectorAt(o, old(calls)).Some? && dim == |VectorAt(o, old(calls)).value|, s.direct)
        && (s.terms != [] ==> forall h :: h in s.All() ==> h in hits)
        && (|s.linked| < k ==> forall i :: 0 <= i < |s.direct| ==>
              AllFound(old(Now()), user, agent, s.direct[i].id, IdSet(s.direct + s.linked)))
        && Ids(s.terms) == (if a.terms.None? then []
                            else Prefix(Fresh(a.terms.value, IdSet(s.direct + s.linked)), k - |s.direct + s.linked|))
        && (|s.All()| <= k ==> LinkedAreThere(old(Now()), user, agent, s.direct, hits) && TermsAreThere(k, a.terms, hits))
        && (AllPositive(s.direct) ==>
              && Ranked(old(Now()), s)
              && forall i: nat :: i < |s.direct| && IsBest(s.direct, i) ==> hits != [] && hits[0] == s.direct[i])
      ensures touch ==> Touched(old(memories), memories, if query == "" || k <= 0 || user <= 0 then [] else Ids(hits))
      ensures !touch ==> memories == old(memories)
    {
      hide Consistent, FreshIds, Distinct, AllMine, Descending, SortDesc, Ranked, IsBest, Touched, AllPositive,
           IsNearRows, IsKeywordRows, IsLinkRows, IsTermRows, Cut, IsDirect, LinkedAreThere, TermsAreThere, AllFound, Fresh;
      hits, s := [], Sources([], [], []);
      NothingTouched(memories);
      if query == "" || k <= 0 || user <= 0 { return; }
      var direct := DirectHits(user, agent, query, k, a);
      hits, s := Widen(Now(), user, agent, direct, k, a.links, a.terms);
      if touch { TouchRecalled(Ids(hits)); }
    }

    /** From the vector index, or by keyword when that cannot answer or finds nothing. */
    method DirectHits(user: int, agent: string, query: string, k: int, a: Answers) returns (direct: seq<Hit>)
      requires Valid() && Fit(Now(), user, agent, k, a) && k > 0
      modifies this`embedderOk, this`calls
      ensures |direct| <= k && Distinct(direct) && AllMine(Now(), user, agent, direct)
      ensures IsDirect(Now(), user, agent, k, a,
                       VectorAt(o, old(calls)).Some? && dim == |VectorAt(o, old(calls)).value|, direct)
    {
      hide Consistent, FreshIds, Distinct, AllMine, Descending, SortDesc, Cut, IsNearRows, IsKeywordRows, IsLinkRows;
      var vec := TryEmbed(query);
      if vec.Some? && dim == |vec.value| {
        direct := RecallSemantic(Now(), user, agent, a.nearest, k);
        if direct != [] { return; }
      }
      direct := RecallKeyword(Now(), user, agent, a.keyword, k);
    }

    method TouchOne(id: int)
      modifies this`memories
      ensures Now() == Touch(old(Now()), id)
    {
      if id in memories { memories := memories[id := memories[id].(recallCount := memories[id].recallCount + 1)]; }
    }
  }

  lemma ClusterIsOfAgent(t: Tables, rows: seq<Neighbour>, user: int, seed: int, floor: real, claimed: set<int>,
                         cluster: seq<int>)
    requires Consistent(t) && forall id :: id in cluster <==> InCluster(t, rows, user, seed, floor, claimed, id)
    ensures forall id :: id in cluster ==>
      Owned(t, user, id) && seed in t.memories && t.memories[id].agent == t.memories[seed].agent
  {
    VectorsAreOwned(t);
    forall id | id in cluster ensures InCluster(t, rows, user, seed, floor, claimed, id) && Owned(t, user, id) {
      VectorIsOwned(t, id);
    }
  }

  /** Without a vector of its own no memory has a cluster. */
  lemma NoCluster(t: Tables, rows: seq<Neighbour>, user: int, seed: int, floor: real, claimed: set<int>)
    ensures seed !in t.vectors ==> forall id :: !InCluster(t, rows, user, seed, floor, claimed, id)
  {
  }

  lemma RanNothing(o: Oracles, user: int, floor: real, now: int, start: Tables, call: nat)
    ensures Ran(o, user, floor, now, start, call, [])
  {
  }

  lemma RanOneMore(o: Oracles, user: int, floor: real, now: int, start: Tables, call: nat, rounds: seq<Round>, r: Round)
    requires Ran(o, user, floor, now, start, call, rounds) && RoundOk(o, user, floor, r)
    requires r.before == TablesAfter(user, now, start, rounds)
    requires r.claimed == Claimed(rounds) && r.call == CallsAfter(o, call, rounds)
    ensures Ran(o, user, floor, now, start, call, rounds + [r])
    ensures Claimed(rounds + [r]) == Claimed(rounds) + r.Taken()
    ensures ReportAfter(o, rounds + [r]) == Counted(o, ReportAfter(o, rounds), r)
  {
    hide RoundOk;
    assert (rounds + [r])[..|rounds|] == rounds;
  }

  lemma InquiredNothing(o: Oracles, user: int, floor: real, ceiling: real, start: Tables, call: nat)
    ensures Inquired(o, user, floor, ceiling, start, call, [])
  {
  }

  lemma InquiredOneMore(o: Oracles, user: int, floor: real, ceiling: real, start: Tables, call: nat,
                        inquiries: seq<Inquiry>, q: Inquiry)
    requires Inquired(o, user, floor, ceiling, start, call, inquiries) && InquiryOk(o, user, floor, ceiling, q)
    requires q.before == TablesInquired(o, start, inquiries) && q.call == CallsInquired(call, inquiries)
    ensures Inquired(o, user, floor, ceiling, start, call, inquiries + [q])
    ensures LinkedIn(o, inquiries + [q]) == LinkedIn(o, inquiries) + q.Linked(o)
  {
    hide InquiryOk;
    assert (inquiries + [q])[..|inquiries|] == inquiries;
  }

  /** A row the index has not listed so far is no candidate so far. */
  lemma NotListedYet(o: Oracles, call: nat, t: Tables, user: int, floor: real, ceiling: real, k: nat)
    requires DistinctRows(o) && k < |o.neighbours(call)|
    ensures !Close(t, o.neighbours(call)[..k], user, floor, Some(ceiling), o.neighbours(call)[k].id)
  {
    hide InBand;
  }

  /** Pruning reaches no further than its user and agent. */
  lemma PruneLeavesOutside(t: Tables, user: int, agent: string, afterDays: int, now: int)
    ensures OutsideUntouched(t, Remove(t, Prunable(t, Some(user), agent, afterDays, now)), user, agent)
  {
    RemoveLeavesOutside(t, Prunable(t, Some(user), agent, afterDays, now), user, agent);
  }

  /** The vectors outside the user and agent, after all rounds and the prune. */
  lemma OutsideVectors(o: Oracles, user: int, floor: real, now: int, start: Tables, call: nat, rounds: seq<Round>,
                       agent: string, afterDays: int, id: int)
    requires Ran(o, user, floor, now, start, call, rounds) && OfAgentOnly(rounds, agent)
    requires id in start.vectors && OutsideIn(start, id, user, agent)
    ensures var merged := TablesAfter(user, now, start, rounds);
      VectorKept(start, Remove(merged, Prunable(merged, Some(user), agent, afterDays, now)), id)
      <==> AllFit(rounds, start.dim)
  {
    hide Ran, AllFit, OfAgentOnly, Uninvolved, TablesAfter;
    OutsidersAreUninvolved(o, user, floor, now, start, call, rounds, agent, id);
    VectorsKeptExactly(o, user, floor, now, start, call, rounds, id);
  }

  lemma PruneOnlyRemoves(t: Tables, ids: set<int>)
    ensures var r := Remove(t, ids); forall id :: id in r.memories ==> id in t.memories && r.memories[id] == t.memories[id]
  {
  }

  /** Pruned is exactly what is automatic, was never recalled, is of that age, and is in the pool. */
  lemma PruneDecides(t: Tables, user: Option<int>, agent: string, afterDays: int, now: int, id: int)
    requires id in t.memories
    ensures var r, m := Remove(t, Prunable(t, user, agent, afterDays, now)), t.memories[id];
      if && afterDays >= 0 && m.source == "auto" && m.recallCount == 0 && m.createdAt + afterDays * 86400 <= now
         && (user.Some? ==> m.user == user.value) && (agent != "" ==> m.agent == agent)
      then id !in r.memories
      else id in r.memories && r.memories[id] == m
  {
  }

  /** The row a merge keeps is not among those it deletes. */
  lemma RemoveSpares(t: Tables, user: int, now: int, m: Merge)
    requires ProperMerge(t, user, m)
    ensures Owned(Merged(t, user, now, m.(vector := None)), user, m.kept)
  {
    MergedRows(t, user, now, m.(vector := None));
  }

  lemma EmptiedKeeps(t: Tables)
    requires MemoriesOk(t) && LinksOk(t) && JudgmentsOk(t) && FtsOk(t)
    ensures Consistent(t.(vectors := map[])) && (t.vectors == map[] || VectorsOk(t) ==> Consistent(t))
  {
    var r := t.(vectors := map[]);
    assert MemoriesOk(r) by { hide LinksOk, JudgmentsOk, FtsOk; }
    hide MemoriesOk;
  }

  lemma NoVectorsYet(t: Tables)
    requires Consistent(t)
    ensures t.dim == 0 ==> t.vectors == map[]
  {
    forall id | id in t.vectors ensures t.dim > 0 {
      assert |t.vectors[id].embedding| == t.dim;
    }
    assert t.dim == 0 ==> t.vectors.Keys == {};
  }

  lemma VectorsAreOwned(t: Tables)
    requires Consistent(t)
    ensures forall id :: id in t.vectors ==> id in t.memories
  {
  }

  lemma VectorIsOwned(t: Tables, id: int)
    requires Consistent(t)
    ensures id in t.vectors ==> Owned(t, t.vectors[id].user, id)
  {
  }

  lemma RowsAreReal(t: Tables, id: int)
    requires Consistent(t) && id in t.memories
    ensures id > 0 && t.memories[id].user > 0 && t.memories[id].agent != ""
  {
  }

  /** A row that was within an operation's reach, or took over the id of one, still is. */
  lemma SeedIsNotOutside(start: Tables, now: Tables, seed: int, user: int, agent: string)
    requires OutsideUntouched(start, now, user, agent) && seed in now.memories
    requires Owned(start, user, seed) && !Outside(start.memories[seed], user, agent)
    ensures !Outside(now.memories[seed], user, agent) && Owned(now, user, seed)
  {
    assert !OutsideIn(now, seed, user, agent);
  }

  /** A memory just recalled, or not an automatic one, survives the pruning that follows. */
  lemma {:induction false} RecalledIsSpared(before: map<int, Memory>, t: Tables, hits: seq<int>, user: Option<int>,
                                            agent: string, age: int, id: int)
    requires Touched(before, t.memories, hits) && id in before && (id in hits || before[id].source != "auto")
    ensures var r := Remove(t, Stale(t, user, agent, age));
      id in r.memories && r.memories[id] == t.memories[id] && SameFact(r.memories[id], before[id])
  {
    assert id in hits ==> multiset(hits)[id] > 0;
  }

  lemma NothingTouched(m: map<int, Memory>)
    ensures Touched(m, m, [])
  {
  }
}
