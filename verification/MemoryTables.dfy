/**
 The memory database as values: the memories, and the four tables derived from
 or hung on them. What keeps them consistent is stated here once; every
 operation of the store is one of these updates, or several.
 */
module MemoryTables {

  datatype Memory = Memory(
    user: int,
    agent: string,
    text: string,
    source: string,
    createdAt: int,
    recallCount: nat)

  /** A row of the vector index: the partition it is filed under, and the embedding. */
  datatype Vector = Vector(user: int, embedding: seq<real>)

  datatype LinkKey = LinkKey(lo: int, hi: int, rel: string)

  datatype Pair = Pair(lo: int, hi: int)

  datatype Tables = Tables(
    memories: map<int, Memory>,
    vectors: map<int, Vector>,
    links: map<LinkKey, real>,
    judgments: map<Pair, bool>,
    fts: map<int, string>,
    dim: nat)                       // 0 until the first vector sizes the index

  // ── Consistency ──

  predicate SameFact(a: Memory, b: Memory) {
    a.user == b.user && a.agent == b.agent && a.text == b.text
  }

  ghost predicate MemoriesOk(t: Tables) {
    && (forall id :: id in t.memories ==>
          id > 0 && t.memories[id].user > 0 && t.memories[id].agent != "" && t.memories[id].text != "")
    && (forall i, j :: i in t.memories && j in t.memories && SameFact(t.memories[i], t.memories[j]) ==> i == j)
  }

  ghost predicate VectorsOk(t: Tables) {
    forall id :: id in t.vectors ==>
      && id in t.memories && t.vectors[id].user == t.memories[id].user
      && |t.vectors[id].embedding| == t.dim > 0
  }

  predicate Owned(t: Tables, user: int, id: int) {
    id in t.memories && t.memories[id].user == user
  }

  predicate OneOwner(t: Tables, a: int, b: int) {
    a in t.memories && b in t.memories && t.memories[a].user == t.memories[b].user
  }

  ghost predicate LinksOk(t: Tables) {
    forall k :: k in t.links ==>
      k.lo < k.hi && OneOwner(t, k.lo, k.hi) && k.rel != "" && 0.0 < t.links[k] <= 1.0
  }

  ghost predicate JudgmentsOk(t: Tables) {
    forall p :: p in t.judgments ==>
      && p.lo < p.hi && OneOwner(t, p.lo, p.hi)
      && t.memories[p.lo].agent == t.memories[p.hi].agent
  }

  ghost predicate FtsOk(t: Tables) {
    t.fts.Keys == t.memories.Keys && forall id :: id in t.memories ==> t.fts[id] == t.memories[id].text
  }

  ghost predicate Consistent(t: Tables) {
    MemoriesOk(t) && VectorsOk(t) && LinksOk(t) && JudgmentsOk(t) && FtsOk(t)
  }

  // ── Updates ──

  /** The row, and the trigger that indexes its text. */
  function Insert(t: Tables, id: int, m: Memory): Tables {
    t.(memories := t.memories[id := m], fts := t.fts[id := m.text])
  }

  function Without<K, V>(m: map<K, V>, gone: set<K>): map<K, V> {
    map k | k in m && k !in gone :: m[k]
  }

  function LinksWithout(links: map<LinkKey, real>, ids: set<int>): map<LinkKey, real> {
    map k | k in links && k.lo !in ids && k.hi !in ids :: links[k]
  }

  function JudgmentsWithout(judgments: map<Pair, bool>, ids: set<int>): map<Pair, bool> {
    map p | p in judgments && p.lo !in ids && p.hi !in ids :: judgments[p]
  }

  /** Rows deleted, with the trigger on the term index and the cascades on links and judgments. */
  function DeleteRows(t: Tables, ids: set<int>): Tables {
    t.(memories := Without(t.memories, ids), fts := Without(t.fts, ids),
       links := LinksWithout(t.links, ids), judgments := JudgmentsWithout(t.judgments, ids))
  }

  function DropVectors(t: Tables, ids: set<int>): Tables {
    t.(vectors := Without(t.vectors, ids))
  }

  /** Memories gone without a trace. */
  function Remove(t: Tables, ids: set<int>): Tables { DropVectors(DeleteRows(t, ids), ids) }

  /** Another dimension empties the index before the vector goes in. */
  function PutVector(t: Tables, user: int, id: int, embedding: seq<real>): Tables {
    var kept := if t.dim == |embedding| then t.vectors else map[];
    t.(vectors := kept[id := Vector(user, embedding)], dim := |embedding|)
  }

  function Low(a: int, b: int): int { if a < b then a else b }

  function High(a: int, b: int): int { if a < b then b else a }

  function PutLink(t: Tables, a: int, b: int, rel: string, weight: real): Tables {
    t.(links := t.links[LinkKey(Low(a, b), High(a, b), rel) := if weight > 1.0 then 1.0 else weight])
  }

  function DropLink(t: Tables, a: int, b: int, rel: string): Tables {
    t.(links := Without(t.links, {LinkKey(Low(a, b), High(a, b), rel)}))
  }

  function PairOf(a: int, b: int): Pair { Pair(Low(a, b), High(a, b)) }

  function Judge(t: Tables, a: int, b: int, related: bool): Tables {
    t.(judgments := t.judgments[PairOf(a, b) := related])
  }

  function Touch(t: Tables, id: int): Tables {
    if id in t.memories
    then t.(memories := t.memories[id := t.memories[id].(recallCount := t.memories[id].recallCount + 1)])
    else t
  }

  // ── Every update keeps the tables consistent ──

  lemma InsertKeepsMemories(t: Tables, id: int, m: Memory)
    requires MemoriesOk(t) && id !in t.memories && id > 0
    requires m.user > 0 && m.agent != "" && m.text != ""
    requires forall other :: other in t.memories ==> !SameFact(t.memories[other], m)
    ensures MemoriesOk(Insert(t, id, m))
  {
    var r := Insert(t, id, m);
    assert forall i :: i in r.memories && i != id ==> r.memories[i] == t.memories[i] && !SameFact(r.memories[i], m);
  }

  lemma InsertKeeps(t: Tables, id: int, m: Memory)
    requires Consistent(t) && id !in t.memories && id > 0
    requires m.user > 0 && m.agent != "" && m.text != ""
    requires forall other :: other in t.memories ==> !SameFact(t.memories[other], m)
    ensures Consistent(Insert(t, id, m))
  {
    InsertKeepsMemories(t, id, m);
    hide MemoriesOk;
  }

  lemma RemoveKeepsMemories(t: Tables, ids: set<int>)
    requires MemoriesOk(t) && FtsOk(t)
    ensures MemoriesOk(Remove(t, ids)) && FtsOk(Remove(t, ids))
  {
    var r := Remove(t, ids);
    assert forall id :: id in r.memories ==> id in t.memories && r.memories[id] == t.memories[id];
  }

  lemma RemoveKeepsLinks(t: Tables, ids: set<int>)
    requires LinksOk(t) && JudgmentsOk(t)
    ensures LinksOk(Remove(t, ids)) && JudgmentsOk(Remove(t, ids))
  {
  }

  lemma RemoveKeeps(t: Tables, ids: set<int>)
    requires Consistent(t)
    ensures Consistent(Remove(t, ids))
  {
    RemoveKeepsMemories(t, ids);
    RemoveKeepsLinks(t, ids);
    hide MemoriesOk, FtsOk, LinksOk, JudgmentsOk;
  }

  lemma PutVectorKeeps(t: Tables, user: int, id: int, embedding: seq<real>)
    requires Consistent(t) && Owned(t, user, id) && embedding != []
    ensures Consistent(PutVector(t, user, id, embedding))
  {
  }

  lemma PutLinkKeeps(t: Tables, user: int, a: int, b: int, rel: string, weight: real)
    requires Consistent(t) && Owned(t, user, a) && Owned(t, user, b) && a != b && rel != "" && weight > 0.0
    ensures Consistent(PutLink(t, a, b, rel, weight))
  {
  }

  lemma DropLinkKeeps(t: Tables, a: int, b: int, rel: string)
    requires Consistent(t)
    ensures Consistent(DropLink(t, a, b, rel))
  {
  }

  lemma JudgeKeeps(t: Tables, a: int, b: int, related: bool)
    requires Consistent(t) && OneOwner(t, a, b) && a != b && t.memories[a].agent == t.memories[b].agent
    ensures Consistent(Judge(t, a, b, related))
  {
  }

  /** Rows that differ only in what no other table looks at. */
  lemma SameFactsKeep(t: Tables, r: Tables)
    requires Consistent(t) && r == t.(memories := r.memories) && r.memories.Keys == t.memories.Keys
    requires forall id :: id in t.memories ==> SameFact(r.memories[id], t.memories[id])
    ensures Consistent(r)
  {
    assert MemoriesOk(r) by {
      hide VectorsOk, LinksOk, JudgmentsOk, FtsOk;
      forall i, j | i in r.memories && j in r.memories && SameFact(r.memories[i], r.memories[j]) ensures i == j {
        assert SameFact(r.memories[i], t.memories[i]) && SameFact(r.memories[j], t.memories[j]);
        assert SameFact(t.memories[i], t.memories[j]);
      }
    }
    hide MemoriesOk;
    assert VectorsOk(r) by { hide LinksOk, JudgmentsOk, FtsOk; }
    assert LinksOk(r) by { hide VectorsOk, JudgmentsOk, FtsOk; }
    assert JudgmentsOk(r) by { hide VectorsOk, LinksOk, FtsOk; }
  }

  lemma TouchKeeps(t: Tables, id: int)
    requires Consistent(t)
    ensures Consistent(Touch(t, id))
  {
    SameFactsKeep(t, Touch(t, id));
  }

  // ── What the updates do and do not do ──

  /** Nothing is left of a removed memory, and nothing else is gone. */
  lemma RemoveIsExact(t: Tables, ids: set<int>)
    requires Consistent(t)
    ensures var r := Remove(t, ids);
      && (forall id :: id in r.memories <==> id in t.memories && id !in ids)
      && (forall id :: id in r.memories ==> r.memories[id] == t.memories[id])
      && (forall id :: id in r.vectors <==> id in t.vectors && id in r.memories)
      && (forall k :: k in r.links <==> k in t.links && k.lo in r.memories && k.hi in r.memories)
      && (forall p :: p in r.judgments <==> p in t.judgments && p.lo in r.memories && p.hi in r.memories)
  {
  }

  lemma RemoveTwice(t: Tables, a: set<int>, b: set<int>)
    ensures Remove(Remove(t, a), b) == Remove(t, a + b)
  {
    var x, y := Remove(Remove(t, a), b), Remove(t, a + b);
    assert x.memories == y.memories && x.fts == y.fts && x.vectors == y.vectors;
    assert x.links == y.links;
    assert x.judgments == y.judgments;
  }

  lemma RemoveNone(t: Tables)
    ensures Remove(t, {}) == t
  {
    var x := Remove(t, {});
    assert x.memories == t.memories && x.fts == t.fts && x.vectors == t.vectors;
    assert x.links == t.links;
    assert x.judgments == t.judgments;
  }

  /** A recycled id starts clean: what a removed memory was linked to, judged with or indexed as is not its own. */
  lemma RecycledIdStartsClean(t: Tables, id: int, m: Memory)
    requires Consistent(t) && id in t.memories
    ensures var r := Insert(Remove(t, {id}), id, m);
      && id !in r.vectors && r.fts[id] == m.text
      && (forall k :: k in r.links ==> k.lo != id && k.hi != id)
      && (forall p :: p in r.judgments ==> p.lo != id && p.hi != id)
  {
  }

  /** A link is stored once, lower id first, with its weight or one if that is less; every other link stays. */
  lemma LinkIsStored(t: Tables, a: int, b: int, rel: string, weight: real)
    requires a < b
    ensures var r, key := PutLink(t, a, b, rel, weight), LinkKey(a, b, rel);
      && key in r.links && r.links[key] <= weight && r.links[key] <= 1.0 && (r.links[key] == weight || r.links[key] == 1.0)
      && (forall k :: k != key ==> (k in r.links <==> k in t.links) && (k in t.links ==> r.links[k] == t.links[k]))
  {
  }

  /** Links have no direction. */
  lemma LinkIsSymmetric(t: Tables, a: int, b: int, rel: string, weight: real)
    requires a != b
    ensures PutLink(t, a, b, rel, weight) == PutLink(t, b, a, rel, weight)
    ensures DropLink(t, a, b, rel) == DropLink(t, b, a, rel)
  {
  }

  /** Unlinking undoes linking, from either end. */
  lemma {:induction false} UnlinkUndoesLink(t: Tables, a: int, b: int, rel: string, weight: real)
    requires a != b && LinkKey(Low(a, b), High(a, b), rel) !in t.links
    ensures DropLink(PutLink(t, a, b, rel, weight), b, a, rel) == t
  {
    var r := DropLink(PutLink(t, a, b, rel, weight), b, a, rel);
    assert r.links == t.links;
  }

  // ── Who is affected ──

  /** A memory an operation for this user, and this agent unless it is "", has no business with. */
  predicate Outside(m: Memory, user: int, agent: string) {
    m.user != user || (agent != "" && m.agent != agent)
  }

  predicate OutsideIn(t: Tables, id: int, user: int, agent: string) {
    id in t.memories && Outside(t.memories[id], user, agent)
  }

  /** The memories outside are the same rows, and keep their links and judgments; of their vectors this says nothing. */
  ghost predicate OutsideUntouched(t: Tables, r: Tables, user: int, agent: string) {
    && (forall id :: OutsideIn(t, id, user, agent) ==>
          id in r.memories && r.memories[id] == t.memories[id])
    && (forall id :: OutsideIn(r, id, user, agent) ==>
          id in t.memories && r.memories[id] == t.memories[id])
    && (forall k :: k in t.links && OutsideIn(r, k.lo, user, agent) && OutsideIn(r, k.hi, user, agent) ==>
          k in r.links && r.links[k] == t.links[k])
    && (forall p :: p in t.judgments && OutsideIn(r, p.lo, user, agent) && OutsideIn(r, p.hi, user, agent) ==>
          p in r.judgments && r.judgments[p] == t.judgments[p])
    && (forall k :: k in r.links && (OutsideIn(r, k.lo, user, agent) || OutsideIn(r, k.hi, user, agent)) ==>
          k in t.links && r.links[k] == t.links[k])
    && (forall p :: p in r.judgments && (OutsideIn(r, p.lo, user, agent) || OutsideIn(r, p.hi, user, agent)) ==>
          p in t.judgments && r.judgments[p] == t.judgments[p])
  }

  lemma OutsideTransitive(a: Tables, b: Tables, c: Tables, user: int, agent: string)
    requires OutsideUntouched(a, b, user, agent) && OutsideUntouched(b, c, user, agent)
    ensures OutsideUntouched(a, c, user, agent)
  {
  }

  lemma RemoveLeavesOutside(t: Tables, ids: set<int>, user: int, agent: string)
    requires forall id :: id in ids && id in t.memories ==> !Outside(t.memories[id], user, agent)
    ensures OutsideUntouched(t, Remove(t, ids), user, agent)
  {
  }

  lemma InsertLeavesOutside(t: Tables, id: int, m: Memory, user: int, agent: string)
    requires Consistent(t) && id !in t.memories && !Outside(m, user, agent)
    ensures OutsideUntouched(t, Insert(t, id, m), user, agent)
  {
  }

  lemma PutVectorLeavesOutside(t: Tables, owner: int, id: int, embedding: seq<real>, user: int, agent: string)
    ensures OutsideUntouched(t, PutVector(t, owner, id, embedding), user, agent)
  {
  }

  predicate VectorKept(t: Tables, r: Tables, id: int) {
    id in t.vectors && id in r.vectors && r.vectors[id] == t.vectors[id]
  }

  /** One memory's vector costs the others theirs, whoever they belong to, exactly when it has another dimension. */
  lemma {:induction false} PutVectorSparesExactly(t: Tables, user: int, id: int, embedding: seq<real>, other: int)
    requires other in t.vectors && other != id
    ensures VectorKept(t, PutVector(t, user, id, embedding), other) <==> |embedding| == t.dim
  {
    var r := PutVector(t, user, id, embedding);
    assert |embedding| != t.dim ==> r.vectors.Keys == {id};
  }

  lemma PutLinkLeavesOutside(t: Tables, a: int, b: int, rel: string, weight: real, user: int, agent: string)
    requires !OutsideIn(t, a, user, agent) && !OutsideIn(t, b, user, agent)
    ensures OutsideUntouched(t, PutLink(t, a, b, rel, weight), user, agent)
  {
  }

  lemma JudgeLeavesOutside(t: Tables, a: int, b: int, related: bool, user: int, agent: string)
    requires !OutsideIn(t, a, user, agent) && !OutsideIn(t, b, user, agent)
    ensures OutsideUntouched(t, Judge(t, a, b, related), user, agent)
  {
  }

  /** What one agent's part leaves alone, the whole user's leaves alone too. */
  lemma OutsideOfAll(t: Tables, r: Tables, user: int, agent: string)
    requires OutsideUntouched(t, r, user, agent)
    ensures OutsideUntouched(t, r, user, "")
  {
    assert forall id :: OutsideIn(r, id, user, "") ==> OutsideIn(r, id, user, agent);
    assert forall id :: OutsideIn(t, id, user, "") ==> OutsideIn(t, id, user, agent);
  }
}
