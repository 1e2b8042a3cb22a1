/**
 Posting one item a slot, in two steps that may fail apart: create the post, then
 comment the link on it. The record on disk is what stops a second post.
 */
module LinkedInPost {
  import opened Wrappers

  /** A slot's line in the record: the id the create returned, and whether the comment is "done". */
  datatype Entry = Entry(postId: Option<string>, done: bool)

  type Record = map<int, Entry>

  /** A create call that returned. */
  datatype Create = Create(slot: int, id: string)

  /** Today's issue: withheld, unreadable, or so many items, some perhaps without a text or a link. */
  datatype Issue =
    | Withheld
    | Unreadable
    | Items(count: nat, texts: set<int>, links: set<int>)

  datatype Oracles = Oracles(
    readable: nat -> bool,             // the record file parses
    authorised: nat -> bool,
    create: nat -> Option<string>,     // None: the call raised
    comment: nat -> bool)

  datatype Exit = Code(code: int) | Raised

  /** Python's truth: an id that is missing or empty does not count as posted. */
  predicate Posted(e: Entry) { e.postId.Some? && e.postId.value != "" }

  predicate Already(record: Record, slot: int) { slot in record && Posted(record[slot]) }

  ghost predicate AllDone(record: Record) { forall s :: s in record ==> record[s].done }

  /** The entry a slot starts the comment round with. */
  function Base(before: Record, slot: int, created: Option<string>, s: int): Entry
    requires s in before || (s == slot && created.Some?)
  {
    if s == slot && created.Some? then Entry(created, false) else before[s]
  }

  /** What one run may do to the record: create for a slot not yet posted, and mark comments done. */
  ghost predicate Step(before: Record, after: Record, slot: int, created: Option<string>) {
    && after.Keys == before.Keys + (if created.Some? then {slot} else {})
    && (created.Some? ==> slot >= 1 && !Already(before, slot))
    && forall s :: s in after ==>
      && after[s].postId == Base(before, slot, created, s).postId
      && (Base(before, slot, created, s).done ==> after[s].done)
  }

  // ── The script ──

  function InsertAscending(slots: seq<int>, s: int): seq<int> {
    if slots == [] then [s]
    else if s <= slots[0] then [s] + slots
    else [slots[0]] + InsertAscending(slots[1..], s)
  }

  lemma {:induction false} InsertAscendingSorts(slots: seq<int>, s: int)
    requires Ascending(slots) && s !in slots
    ensures Ascending(InsertAscending(slots, s))
    ensures forall x :: x in InsertAscending(slots, s) <==> x in slots || x == s
  {
    if slots != [] {
      if s > slots[0] {
        InsertAscendingSorts(slots[1..], s);
        assert slots == [slots[0]] + slots[1..];
        var rest := InsertAscending(slots[1..], s);
        forall i | 0 <= i < |rest| ensures slots[0] < rest[i] {
          assert rest[i] in rest;
        }
      } else {
        assert s < slots[0];
      }
    }
  }

  predicate Ascending(slots: seq<int>) {
    forall i, j :: 0 <= i < j < |slots| ==> slots[i] < slots[j]
  }

  /** There is a post to comment on, and the issue says what. */
  predicate Commentable(issue: Issue, e: Entry, slot: int) {
    e.postId.Some? && issue.Items? && 1 <= slot <= issue.count && slot in issue.links
  }

  /** The slots whose comment is not done, lowest first. */
  ghost predicate IsOwed(record: Record, owed: seq<int>) {
    Ascending(owed) && forall s :: s in owed <==> s in record && !record[s].done
  }

  /** The comments a round over these slots asks for: none where there is nothing to comment on. */
  function CommentCalls(issue: Issue, record: Record, slots: seq<int>): nat {
    if slots == [] then 0
    else
      var slot := slots[|slots| - 1];
      CommentCalls(issue, record, slots[..|slots| - 1])
      + if slot in record && Commentable(issue, record[slot], slot) then 1 else 0
  }

  /** The record after a round over these slots, whose comments are answered from the call-th on. */
  function Commented(o: Oracles, issue: Issue, record: Record, slots: seq<int>, call: nat): Record {
    if slots == [] then record
    else
      var init, slot := slots[..|slots| - 1], slots[|slots| - 1];
      var r := Commented(o, issue, record, init, call);
      if slot !in record then r
      else
        var answer := o.comment(call + CommentCalls(issue, record, init));
        r[slot := record[slot].(done := Commentable(issue, record[slot], slot) && answer)]
  }

  lemma {:induction false} CommentedElsewhere(o: Oracles, issue: Issue, record: Record, slots: seq<int>, call: nat)
    ensures var r := Commented(o, issue, record, slots, call);
      r.Keys == record.Keys && forall s :: s in record && s !in slots ==> r[s] == record[s]
  {
    if slots != [] { CommentedElsewhere(o, issue, record, slots[..|slots| - 1], call); }
  }

  lemma CommentedNothing(o: Oracles, issue: Issue, record: Record, call: nat)
    ensures Commented(o, issue, record, [], call) == record && CommentCalls(issue, record, []) == 0
  {
  }

  lemma CommentedNext(o: Oracles, issue: Issue, record: Record, slots: seq<int>, slot: int, call: nat)
    requires slot in record
    ensures var done := Commentable(issue, record[slot], slot)
                        && o.comment(call + CommentCalls(issue, record, slots));
      Commented(o, issue, record, slots + [slot], call)
      == Commented(o, issue, record, slots, call)[slot := record[slot].(done := done)]
    ensures CommentCalls(issue, record, slots + [slot])
      == CommentCalls(issue, record, slots) + if Commentable(issue, record[slot], slot) then 1 else 0
  {
    assert (slots + [slot])[..|slots|] == slots;
  }

  lemma AscendingApart(slots: seq<int>, k: nat)
    requires Ascending(slots) && k < |slots|
    ensures slots[k] !in slots[..k] && slots[k] !in slots[k + 1..]
  {
  }

  /** The k-th slot is done after the round exactly when it can be commented on and its own comment works. */
  lemma {:induction false} CommentedAt(o: Oracles, issue: Issue, record: Record, slots: seq<int>, call: nat, k: nat)
    requires k < |slots| && Ascending(slots) && slots[k] in record
    ensures var r, s := Commented(o, issue, record, slots, call), slots[k];
      s in r && r[s] == record[s].(done :=
        && record[s].postId.Some? && issue.Items? && 1 <= s <= issue.count && s in issue.links
        && o.comment(call + CommentCalls(issue, record, slots[..k])))
  {
    var init, last := slots[..|slots| - 1], slots[|slots| - 1];
    if k < |init| {
      assert init[..k] == slots[..k] && init[k] == slots[k] && slots[k] < last;
      CommentedAt(o, issue, record, init, call, k);
    } else {
      assert slots[..k] == init;
    }
  }

  /** A round changes nothing but "done", and only from false to true. */
  lemma CommentedKeeps(o: Oracles, issue: Issue, record: Record, owed: seq<int>, call: nat)
    requires IsOwed(record, owed)
    ensures var r := Commented(o, issue, record, owed, call);
      r.Keys == record.Keys && forall s :: s in r ==> r[s].postId == record[s].postId && (record[s].done ==> r[s].done)
  {
    CommentedElsewhere(o, issue, record, owed, call);
    forall s | s in record && s in owed ensures Commented(o, issue, record, owed, call)[s].postId == record[s].postId {
      var k :| 0 <= k < |owed| && owed[k] == s;
      CommentedAt(o, issue, record, owed, call, k);
    }
  }

  /** Comments that fail leave the record as it was. */
  lemma FailedCommentsKeep(o: Oracles, issue: Issue, record: Record, owed: seq<int>, call: nat)
    requires IsOwed(record, owed) && forall n :: !o.comment(n)
    ensures Commented(o, issue, record, owed, call) == record
  {
    var r := Commented(o, issue, record, owed, call);
    CommentedElsewhere(o, issue, record, owed, call);
    forall s | s in record ensures r[s] == record[s] {
      if s in owed {
        var k :| 0 <= k < |owed| && owed[k] == s;
        CommentedAt(o, issue, record, owed, call, k);
      }
    }
  }

  /** One run of the script: its arguments, what it finds, and the first oracle answer it will use. */
  datatype Run = Run(o: Oracles, call: nat, slot: int, issue: Issue, dryRun: bool)

  /** It gets as far as the record. */
  predicate Proceeds(run: Run) {
    && run.issue.Items? && 1 <= run.slot <= run.issue.count && run.slot in run.issue.texts && run.slot in run.issue.links
    && !run.dryRun && run.o.readable(run.call)
  }

  /** The post it makes: none for a slot already posted. */
  function CreatedBy(run: Run, before: Record): Option<string> {
    if Proceeds(run) && !Already(before, run.slot) && run.o.authorised(run.call + 1)
    then run.o.create(run.call + 2) else None
  }

  /** What the run does to the record: the create on file first, then one round of comments. */
  ghost predicate Outcome(run: Run, before: Record, after: Record) {
    var created := CreatedBy(run, before);
    var mid := if created.Some? then before[run.slot := Entry(created, false)] else before;
    if Proceeds(run) && run.o.authorised(run.call + 1) && (Already(before, run.slot) || created.Some?) then
      exists owed :: IsOwed(mid, owed) && after ==
        Commented(run.o, run.issue, mid, owed, run.call + if created.Some? then 3 else 2)
    else after == before
  }

  /** There is something to do, and it cannot: no token, or a create that failed. */
  ghost predicate Stops(run: Run, before: Record) {
    && !(Already(before, run.slot) && AllDone(before))
    && (!run.o.authorised(run.call + 1) || (!Already(before, run.slot) && run.o.create(run.call + 2).None?))
  }

  lemma OutcomeIsStep(run: Run, before: Record, after: Record)
    requires Outcome(run, before, after)
    ensures Step(before, after, run.slot, CreatedBy(run, before))
  {
    var created := CreatedBy(run, before);
    var mid := if created.Some? then before[run.slot := Entry(created, false)] else before;
    if Proceeds(run) && run.o.authorised(run.call + 1) && (Already(before, run.slot) || created.Some?) {
      var call := run.call + if created.Some? then 3 else 2;
      var owed :| IsOwed(mid, owed) && after == Commented(run.o, run.issue, mid, owed, call);
      CommentedKeeps(run.o, run.issue, mid, owed, call);
    }
  }

  /** How a run ends that does not get as far as the record; without a link the script raises. */
  ghost function EarlyExit(slot: nat, issue: Issue, dryRun: bool): Exit {
    match issue
    case Withheld => Code(3)
    case Unreadable => Code(1)
    case Items(count, texts, links) =>
      if slot > count then Code(0)
      else if slot == 0 || slot !in texts then Code(1)
      else if slot !in links then Raised
      else if dryRun then Code(0)
      else Code(1)
  }

  class Publisher {
    const o: Oracles

    var saved: Record
    var calls: nat                    // oracle answers used up
    ghost var creates: seq<Create>    // every create that returned, in order

    /** Whatever was created under an id is on record under it, and was not created twice. */
    ghost predicate Valid()
      reads this
    {
      CreatedOnce(saved, creates)
    }

    constructor (o: Oracles)
      ensures Valid() && saved == map[] && creates == [] && this.o == o
    {
      this.o := o;
      saved, calls, creates := map[], 0, [];
    }

    /** Over a record that is there already. */
    constructor FromRecord(o: Oracles, record: Record)
      ensures Valid() && saved == record && creates == [] && calls == 0 && this.o == o
    {
      this.o := o;
      saved, calls, creates := record, 0, [];
    }

    method OwedSlots(posted: Record) returns (owed: seq<int>)
      ensures IsOwed(posted, owed)
    {
      owed := [];
      var left := set s | s in posted && !posted[s].done;
      while left != {}
        invariant forall s :: s in left ==> s in posted && !posted[s].done && s !in owed
        invariant Ascending(owed) && forall s :: s in posted && !posted[s].done <==> s in left || s in owed
        decreases left
      {
        Some1(left);
        var s: int :| s in left;
        InsertAscendingSorts(owed, s);
        owed, left := InsertAscending(owed, s), left - {s};
      }
    }

    /** One comment, if there is a post and a link for it. */
    method TryComment(issue: Issue, e: Entry, slot: int) returns (done: bool)
      modifies this`calls
      ensures done <==> Commentable(issue, e, slot) && o.comment(old(calls))
      ensures calls == old(calls) + if Commentable(issue, e, slot) then 1 else 0
    {
      done := false;
      if Commentable(issue, e, slot) {
        done := o.comment(calls);
        calls := calls + 1;
      }
    }

    /** Every comment still owed is tried once, lowest slot first, the record saved after each. */
    method FinishComments(issue: Issue, posted0: Record) returns (stillOwed: seq<int>, ghost tried: seq<int>)
      requires saved == posted0
      modifies this`saved, this`calls
      ensures IsOwed(posted0, tried) && saved == Commented(o, issue, posted0, tried, old(calls))
      ensures calls == old(calls) + CommentCalls(issue, posted0, tried)
      ensures forall s :: s in stillOwed <==> s in saved && !saved[s].done
    {
      hide Commentable, Commented, CommentCalls, Ascending;
      CommentedNothing(o, issue, posted0, calls);
      var posted := posted0;
      var owed := OwedSlots(posted0);
      stillOwed, tried := [], owed;
      for k := 0 to |owed|
        invariant saved == posted && posted == Commented(o, issue, posted0, owed[..k], old(calls))
        invariant calls == old(calls) + CommentCalls(issue, posted0, owed[..k])
        invariant posted.Keys == posted0.Keys && forall s :: s in posted && s !in owed[..k] ==> posted[s] == posted0[s]
        invariant forall s :: s in posted && !posted[s].done <==> s in stillOwed || s in owed[k..]
        invariant forall s :: s in stillOwed ==> s in owed[..k]
      {
        var slot := owed[k];
        assert owed[..k + 1] == owed[..k] + [slot] && owed[k..] == [slot] + owed[k + 1..];
        AscendingApart(owed, k);
        CommentedNext(o, issue, posted0, owed[..k], slot, old(calls));
        assert slot in owed;
        var done := TryComment(issue, posted[slot], slot);
        posted := posted[slot := posted[slot].(done := done)];
        if !done { stillOwed := stillOwed + [slot]; }
        saved := posted;
      }
      assert owed[..|owed|] == owed;
    }

    /**
     One run for one slot, for which the record changes exactly as Outcome says.
     A run that got as far as the record and returned 0 leaves no comment owed.
     */
    method Post(slot: nat, issue: Issue, dryRun: bool)
      returns (exit: Exit, ghost created: Option<string>, ghost reached: bool)
      requires Valid()
      modifies this
      ensures Valid() && Outcome(Run(o, old(calls), slot, issue, dryRun), old(saved), saved)
      ensures reached == Proceeds(Run(o, old(calls), slot, issue, dryRun))
      ensures created == CreatedBy(Run(o, old(calls), slot, issue, dryRun), old(saved))
      ensures creates == old(creates) + (if created.Some? then [Create(slot, created.value)] else [])
      ensures reached && exit == Code(0) ==>
        AllDone(saved) && slot in saved && (Posted(saved[slot]) || created == Some(""))
      ensures exit == Code(4) ==> reached && !AllDone(saved)
      ensures reached ==> exit in {Code(0), Code(4), Raised}
      ensures exit.Raised? ==> saved == old(saved)
      ensures !reached ==> exit == EarlyExit(slot, issue, dryRun)
      ensures reached ==> (exit.Raised? <==> Stops(Run(o, old(calls), slot, issue, dryRun), old(saved)))
    {
      hide Outcome, CreatedOnce, Already, AllDone;
      ghost var run := Run(o, calls, slot, issue, dryRun);
      StoppedEarly(run, saved);
      created, reached := None, false;
      if issue.Withheld? { return Code(3), None, false; }
      if issue.Unreadable? { return Code(1), None, false; }
      if slot > issue.count { return Code(0), None, false; }
      if slot < 1 || slot !in issue.texts { return Code(1), None, false; }
      if slot !in issue.links { return Raised, None, false; }
      if dryRun { return Code(0), None, false; }
      calls := calls + 1;
      if !o.readable(calls - 1) { return Code(1), None, false; }
      reached := true;
      exit, created := AtTheRecord(slot, issue, run);
    }

    /** From the record on: the create first, put on file, then the comments. */
    method AtTheRecord(slot: nat, issue: Issue, ghost run: Run) returns (exit: Exit, ghost created: Option<string>)
      requires Valid() && run == Run(o, run.call, slot, issue, run.dryRun) && Proceeds(run) && calls == run.call + 1
      modifies this
      ensures Valid() && Outcome(run, old(saved), saved) && created == CreatedBy(run, old(saved))
      ensures creates == old(creates) + (if created.Some? then [Create(slot, created.value)] else [])
      ensures exit == Code(0) ==> AllDone(saved) && slot in saved && (Posted(saved[slot]) || created == Some(""))
      ensures exit == Code(4) ==> !AllDone(saved)
      ensures exit in {Code(0), Code(4), Raised}
      ensures exit.Raised? ==> saved == old(saved)
      ensures exit.Raised? <==> Stops(run, old(saved))
      ensures Already(old(saved), slot) && AllDone(old(saved)) ==> calls == old(calls)
    {
      hide Outcome, CreatedOnce, Commented, Ascending;
      created := None;
      StoppedEarly(run, saved);
      var posted := saved;
      var already := Already(posted, slot);
      var owed := OwedSlots(posted);
      NoneOwed(posted, owed);
      if already && owed == [] {
        NothingOwed(run, saved, owed);
        return Code(0), None;
      }
      calls := calls + 1;
      if !o.authorised(calls - 1) { return Raised, None; }
      if !already {
        var id := o.create(calls);
        calls := calls + 1;
        if id.None? { return Raised, None; }
        posted := posted[slot := Entry(id, false)];
        saved := posted;
        created := id;
        CreateKeeps(old(saved), old(creates), slot, id.value);
        creates := creates + [Create(slot, id.value)];
      }
      ghost var mid, call := saved, calls;
      var stillOwed;
      ghost var tried;
      stillOwed, tried := FinishComments(issue, posted);
      RunsThrough(run, old(saved), mid, tried, call, saved);
      CommentedKeeps(o, issue, mid, tried, call);
      CommentsKeep(mid, saved, creates);
      NoneOwed(saved, stillOwed);
      exit := Code(if stillOwed != [] then 4 else 0);
    }
  }

  lemma NoneOwed(record: Record, owed: seq<int>)
    requires forall s :: s in owed <==> s in record && !record[s].done
    ensures AllDone(record) <==> owed == []
  {
    if owed != [] {
      var s := owed[0];
      assert s in owed && !record[s].done;
    } else {
      forall s | s in record ensures record[s].done { assert s !in owed; }
    }
  }

  lemma StoppedEarly(run: Run, before: Record)
    ensures !Proceeds(run) || !run.o.authorised(run.call + 1)
            || (!Already(before, run.slot) && run.o.create(run.call + 2).None?)
      ==> Outcome(run, before, before) && CreatedBy(run, before).None?
  {
  }

  lemma RunsThrough(run: Run, before: Record, mid: Record, owed: seq<int>, call: nat, after: Record)
    requires Proceeds(run) && run.o.authorised(run.call + 1)
    requires var created := CreatedBy(run, before);
      && (Already(before, run.slot) || created.Some?)
      && mid == (if created.Some? then before[run.slot := Entry(created, false)] else before)
      && call == run.call + if created.Some? then 3 else 2
    requires IsOwed(mid, owed) && after == Commented(run.o, run.issue, mid, owed, call)
    ensures Outcome(run, before, after)
  {
  }

  lemma NothingOwed(run: Run, before: Record, owed: seq<int>)
    requires Proceeds(run) && Already(before, run.slot) && IsOwed(before, owed) && owed == []
    ensures Outcome(run, before, before) && AllDone(before)
  {
    assert IsOwed(before, []) && before == Commented(run.o, run.issue, before, [], run.call + 2);
    forall s | s in before ensures before[s].done { assert s !in owed; }
  }

  lemma Some1(s: set<int>)
    requires s != {}
    ensures exists x :: x in s
  {
    assert (forall x :: x !in s) ==> s == {};
  }

  // ── What the record guarantees ──

  /** Every id returned is on record, no slot got two, and what is on record was returned unless it was there before. */
  ghost predicate CreatedOnce(record: Record, creates: seq<Create>) {
    && (forall i :: 0 <= i < |creates| && creates[i].id != "" ==>
          creates[i].slot in record && record[creates[i].slot].postId == Some(creates[i].id))
    && (forall i, j :: 0 <= i < j < |creates| && creates[i].slot == creates[j].slot ==> creates[i].id == "")
  }

  lemma CreateKeeps(record: Record, creates: seq<Create>, slot: int, id: string)
    requires CreatedOnce(record, creates) && !Already(record, slot)
    ensures CreatedOnce(record[slot := Entry(Some(id), false)], creates + [Create(slot, id)])
  {
  }

  lemma CommentsKeep(before: Record, after: Record, creates: seq<Create>)
    requires CreatedOnce(before, creates) && after.Keys == before.Keys
    requires forall s :: s in after ==> after[s].postId == before[s].postId
    ensures CreatedOnce(after, creates)
  {
  }

  // ── Over any number of runs ──

  /** A sequence of runs, each seeing the record the last one left. */
  ghost predicate Runs(records: seq<Record>, runs: seq<Run>) {
    && |records| == |runs| + 1
    && forall i :: 0 <= i < |runs| ==> Outcome(runs[i], records[i], records[i + 1])
  }

  /** A slot posted under an id keeps that id, and a comment done on it stays done. */
  lemma {:induction false} PostedIsForever(records: seq<Record>, runs: seq<Run>, i: nat, j: nat, s: int)
    requires Runs(records, runs) && i <= j < |records| && Already(records[i], s)
    ensures s in records[j] && records[j][s].postId == records[i][s].postId
    ensures records[i][s].done ==> records[j][s].done
    decreases j - i
  {
    if i < j {
      PostedIsForever(records, runs, i, j - 1, s);
      OutcomeIsStep(runs[j - 1], records[j - 1], records[j]);
    }
  }

  /** At most one create of a slot returns an id. */
  lemma OneIdPerSlot(records: seq<Record>, runs: seq<Run>, i: nat, j: nat)
    requires Runs(records, runs) && i < j < |runs| && runs[i].slot == runs[j].slot
    requires CreatedBy(runs[i], records[i]).Some? && CreatedBy(runs[i], records[i]).value != ""
    ensures CreatedBy(runs[j], records[j]).None?
  {
    OutcomeIsStep(runs[i], records[i], records[i + 1]);
    assert Already(records[i + 1], runs[i].slot);
    PostedIsForever(records, runs, i + 1, j, runs[i].slot);
  }

  /** A run whose create returned and whose comments all failed leaves its slot on file with the comment owed. */
  lemma CreateWithoutComment(run: Run, before: Record, after: Record)
    requires Outcome(run, before, after) && CreatedBy(run, before).Some? && forall n :: !run.o.comment(n)
    ensures after == before[run.slot := Entry(CreatedBy(run, before), false)]
  {
    var mid := before[run.slot := Entry(CreatedBy(run, before), false)];
    var owed :| IsOwed(mid, owed) && after == Commented(run.o, run.issue, mid, owed, run.call + 3);
    FailedCommentsKeep(run.o, run.issue, mid, owed, run.call + 3);
  }

  /** The run that posts a slot again under the id "again", every comment failing. */
  function Again(slot: int): Run
    requires slot >= 1
  {
    Run(Oracles(n => true, n => true, n => Some("again"), n => false), 0, slot, Items(slot, {slot}, {slot}), false)
  }

  /** It is a run of the script on any record in which the slot does not count as posted. */
  lemma AgainHappens(before: Record, slot: int)
    requires slot >= 1 && !Already(before, slot)
    ensures Outcome(Again(slot), before, before[slot := Entry(Some("again"), false)])
  {
    var run, mid := Again(slot), before[slot := Entry(Some("again"), false)];
    var owed := OwedExists(set s | s in mid && !mid[s].done);
    FailedCommentsKeep(run.o, run.issue, mid, owed, run.call + 3);
    assert IsOwed(mid, owed) && CreatedBy(run, before) == Some("again");
  }

  lemma {:induction false} OwedExists(left: set<int>) returns (owed: seq<int>)
    ensures Ascending(owed) && forall s :: s in owed <==> s in left
    decreases left
  {
    owed := [];
    if left != {} {
      Some1(left);
      var s: int :| s in left;
      var rest := OwedExists(left - {s});
      InsertAscendingSorts(rest, s);
      owed := InsertAscending(rest, s);
    }
  }

  /**
   "Done" survives every run exactly when no done entry a run can be for has an
   empty id: one that has is posted again, and owes its comment again.
   */
  lemma DoneIsSafeExactly(before: Record)
    ensures (forall run, after: Record :: Outcome(run, before, after) ==>
               forall s :: s in before && before[s].done ==> s in after && after[s].done)
            <==> (forall s :: s in before && s >= 1 && before[s].done ==> Posted(before[s]))
  {
    hide Outcome;
    if s :| s in before && s >= 1 && before[s].done && !Posted(before[s]) {
      var after := before[s := Entry(Some("again"), false)];
      AgainHappens(before, s);
      assert s in before && before[s].done && !after[s].done;
    } else {
      forall run, after: Record | Outcome(run, before, after)
        ensures forall s :: s in before && before[s].done ==> s in after && after[s].done
      {
        OutcomeIsStep(run, before, after);
        forall s | s in before && before[s].done ensures s in after && after[s].done {
          assert s == run.slot && CreatedBy(run, before).Some? ==> !Already(before, s) && s >= 1;
        }
      }
    }
  }

  /** The same for recorded ids: no run changes one exactly when none a run can be for is missing or empty. */
  lemma IdsAreSafeExactly(before: Record)
    ensures (forall run, after: Record :: Outcome(run, before, after) ==>
               forall s :: s in before ==> s in after && after[s].postId == before[s].postId)
            <==> (forall s :: s in before && s >= 1 ==> Posted(before[s]))
  {
    hide Outcome;
    if s :| s in before && s >= 1 && !Posted(before[s]) {
      var after := before[s := Entry(Some("again"), false)];
      AgainHappens(before, s);
      assert s in before && after[s].postId != before[s].postId;
    } else {
      forall run, after: Record | Outcome(run, before, after)
        ensures forall s :: s in before ==> s in after && after[s].postId == before[s].postId
      {
        OutcomeIsStep(run, before, after);
        forall s | s in before ensures s in after && after[s].postId == before[s].postId {
          assert s == run.slot && CreatedBy(run, before).Some? ==> !Already(before, s) && s >= 1;
        }
      }
    }
  }

  /** The script itself, its one entry done under an empty id: it posts again, and owes the comment again. */
  method PostOverEmptyId(slot: nat) returns (p: Publisher)
    requires slot >= 1
    ensures p.saved == map[slot := Entry(Some("again"), false)]
  {
    var run := Again(slot);
    var before := map[slot := Entry(Some(""), true)];
    p := new Publisher.FromRecord(run.o, before);
    var exit, created, reached := p.Post(slot, run.issue, false);
    CreateWithoutComment(run, before, p.saved);
  }
}
