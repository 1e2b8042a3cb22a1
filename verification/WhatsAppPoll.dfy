/**
 Reading new messages from an append-only store with a watermark: the newest
 timestamp seen, and the ids seen at it.

 Timestamps are texts the store and the script order alike; all that matters
 here is that order and its least element, the empty text, which is 0.
 */
module WhatsAppPoll {

  type Timestamp = nat

  const NO_TIME: Timestamp := 0

  datatype Row = Row(id: int, time: Timestamp, fromMe: bool)

  /** Message ids are unique. */
  ghost predicate UniqueIds(store: set<Row>) {
    forall a, b :: a in store && b in store && a.id == b.id ==> a == b
  }

  datatype Watermark = Watermark(time: Timestamp, ids: set<int>)

  // ── The two queries ──

  /** Incoming rows at or after the watermark. */
  predicate Selected(store: set<Row>, time: Timestamp, r: Row) {
    r in store && !r.fromMe && r.time >= time
  }

  /** An answer to the query: each selected row once, oldest first. */
  ghost predicate IsAnswer(store: set<Row>, time: Timestamp, rows: seq<Row>) {
    && (forall r :: r in rows <==> Selected(store, time, r))
    && OldestFirst(rows)
  }

  /** What the watermark has not seen yet. */
  predicate IsFresh(w: Watermark, r: Row) { !(r.time == w.time && r.id in w.ids) }

  /** The watermark after a poll: the newest row selected, with every id selected at its time. */
  ghost predicate Advanced(store: set<Row>, w: Watermark, next: Watermark) {
    if exists r :: Selected(store, w.time, r) then
      && (exists r :: Selected(store, w.time, r) && r.time == next.time)
      && (forall r :: Selected(store, w.time, r) ==> r.time <= next.time)
      && (forall id :: id in next.ids <==> exists r :: Selected(store, w.time, r) && r.time == next.time && r.id == id)
    else next == w
  }

  class Poller {
    var state: Watermark

    /** First run: start behind the newest message of any direction. `newest` is MAX(timestamp), 0 on an empty store. */
    constructor Seed(store: set<Row>, newest: Timestamp)
      requires forall r :: r in store ==> r.time <= newest
      requires newest == NO_TIME || exists r :: r in store && r.time == newest
      ensures state == Seeded(store, newest)
    {
      state := if newest == NO_TIME then Watermark(NO_TIME, {})
               else Watermark(newest, set r | r in store && r.time == newest :: r.id);
    }

    /** Returns what is new, oldest first, and moves the watermark. */
    method FetchNewMessages(store: set<Row>, rows: seq<Row>) returns (unseen: seq<Row>)
      requires IsAnswer(store, state.time, rows)
      modifies this
      ensures forall r :: r in unseen <==> Selected(store, old(state).time, r) && IsFresh(old(state), r)
      ensures OldestFirst(unseen)
      ensures Advanced(store, old(state), state)
    {
      hide Advanced;
      unseen := Unseen(rows, state);
      if rows == [] {
        NothingSelected(store, state);
      } else {
        var newest := Newest(rows);
        ghost var w := state;
        state := Watermark(newest, set r | r in rows && r.time == newest :: r.id);
        MovesOn(store, w, rows, state);
      }
    }
  }

  /** Each once, oldest first. */
  ghost predicate OldestFirst(rows: seq<Row>) {
    forall i, j :: 0 <= i < j < |rows| ==> rows[i] != rows[j] && rows[i].time <= rows[j].time
  }

  method Unseen(rows: seq<Row>, mark: Watermark) returns (unseen: seq<Row>)
    requires OldestFirst(rows)
    ensures forall r :: r in unseen <==> r in rows && IsFresh(mark, r)
    ensures OldestFirst(unseen)
  {
    hide IsFresh;
    unseen := [];
    for k := 0 to |rows|
      invariant forall r :: r in unseen <==> r in rows[..k] && IsFresh(mark, r)
      invariant OldestFirst(unseen)
    {
      assert rows[..k + 1] == rows[..k] + [rows[k]];
      if IsFresh(mark, rows[k]) {
        forall i | 0 <= i < |unseen| ensures unseen[i] != rows[k] && unseen[i].time <= rows[k].time {
          assert unseen[i] in rows[..k];
        }
        unseen := unseen + [rows[k]];
      }
    }
    assert rows[..|rows|] == rows;
  }

  method Newest(rows: seq<Row>) returns (newest: Timestamp)
    requires rows != []
    ensures (exists r :: r in rows && r.time == newest) && forall r :: r in rows ==> r.time <= newest
  {
    newest := rows[0].time;
    for k := 0 to |rows|
      invariant forall r :: r in rows[..k] ==> r.time <= newest
      invariant exists r :: r in rows && r.time == newest
    {
      assert rows[..k + 1] == rows[..k] + [rows[k]];
      if rows[k].time > newest { newest := rows[k].time; }
    }
    assert rows[..|rows|] == rows;
  }

  lemma NothingSelected(store: set<Row>, w: Watermark)
    requires IsAnswer(store, w.time, [])
    ensures Advanced(store, w, w)
  {
    assert forall r :: Selected(store, w.time, r) ==> r in [];
  }

  lemma MovesOn(store: set<Row>, w: Watermark, rows: seq<Row>, next: Watermark)
    requires rows != [] && forall r :: r in rows <==> Selected(store, w.time, r)
    requires (exists r :: r in rows && r.time == next.time) && forall r :: r in rows ==> r.time <= next.time
    requires next.ids == set r | r in rows && r.time == next.time :: r.id
    ensures Advanced(store, w, next)
  {
    assert rows[0] in rows;
  }

  function Seeded(store: set<Row>, newest: Timestamp): Watermark {
    if newest == NO_TIME then Watermark(NO_TIME, {})
    else Watermark(newest, set r | r in store && r.time == newest :: r.id)
  }

  // ── Runs ──

  datatype Event = Insert(row: Row) | Poll

  datatype State = State(store: set<Row>, mark: Watermark)

  /** Rows are only added, under new ids; polls move the watermark. */
  ghost predicate Step(s: State, e: Event, t: State) {
    match e
    case Insert(row) =>
      && (forall r :: r in s.store ==> r.id != row.id)
      && t == s.(store := s.store + {row})
    case Poll => t.store == s.store && Advanced(s.store, s.mark, t.mark)
  }

  ghost predicate IsRun(states: seq<State>, events: seq<Event>) {
    && |states| == |events| + 1
    && UniqueIds(states[0].store) && MarkIsOfStore(states[0])
    && forall i :: 0 <= i < |events| ==> Step(states[i], events[i], states[i + 1])
  }

  ghost predicate MarkIsOfStore(s: State) {
    forall id :: id in s.mark.ids ==> exists r :: r in s.store && r.id == id
  }

  /** The i-th event polls, and hands out the row. */
  ghost predicate Returned(states: seq<State>, events: seq<Event>, i: nat, row: Row)
    requires i < |events| < |states|
  {
    events[i].Poll? && Selected(states[i].store, states[i].mark.time, row) && IsFresh(states[i].mark, row)
  }

  /** Behind the watermark, or seen at it: no poll will hand the row out again. */
  predicate Settled(s: State, row: Row) {
    row.time < s.mark.time || (row.time == s.mark.time && row.id in s.mark.ids)
  }

  lemma StepKeeps(s: State, e: Event, t: State)
    requires Step(s, e, t) && UniqueIds(s.store) && MarkIsOfStore(s)
    ensures UniqueIds(t.store) && MarkIsOfStore(t) && s.store <= t.store
  {
    if e.Poll? {
      forall id | id in t.mark.ids ensures exists r :: r in t.store && r.id == id {
        if exists r :: Selected(s.store, s.mark.time, r) {
          var r :| Selected(s.store, s.mark.time, r) && r.time == t.mark.time && r.id == id;
        }
      }
    } else {
      forall id | id in t.mark.ids ensures exists r :: r in t.store && r.id == id {
        var r :| r in s.store && r.id == id;
        assert r in t.store;
      }
    }
  }

  /** A settled row stays settled; a poll settles every row it selects. */
  lemma SettledStays(s: State, e: Event, t: State, row: Row)
    requires Step(s, e, t) && row in s.store && !row.fromMe
    requires Settled(s, row) || (e.Poll? && row.time >= s.mark.time)
    ensures Settled(t, row)
  {
    if e.Poll? && row.time >= s.mark.time {
      assert Selected(s.store, s.mark.time, row);
    }
    if e.Poll? && row.time < s.mark.time {
      if exists r :: Selected(s.store, s.mark.time, r) {
        var r :| Selected(s.store, s.mark.time, r) && r.time == t.mark.time;
      }
    }
  }

  lemma {:induction false} RunKeeps(states: seq<State>, events: seq<Event>, n: nat)
    requires IsRun(states, events) && n < |states|
    ensures UniqueIds(states[n].store) && MarkIsOfStore(states[n])
    decreases n
  {
    hide UniqueIds, MarkIsOfStore, Step;
    if n > 0 {
      RunKeeps(states, events, n - 1);
      StepKeeps(states[n - 1], events[n - 1], states[n]);
    }
  }

  lemma {:induction false} SettledForever(states: seq<State>, events: seq<Event>, i: nat, j: nat, row: Row)
    requires IsRun(states, events) && i <= j < |states|
    requires row in states[i].store && !row.fromMe && Settled(states[i], row)
    ensures row in states[j].store && Settled(states[j], row)
    decreases j - i
  {
    hide UniqueIds, MarkIsOfStore, Step, Settled;
    if i < j {
      SettledForever(states, events, i, j - 1, row);
      RunKeeps(states, events, j - 1);
      StepKeeps(states[j - 1], events[j - 1], states[j]);
      SettledStays(states[j - 1], events[j - 1], states[j], row);
    }
  }

  ghost predicate NoPoll(events: seq<Event>, i: nat, j: nat)
    requires j <= |events|
  {
    forall k :: i <= k < j ==> !events[k].Poll?
  }

  /** Between polls only the store grows. */
  lemma {:induction false} QuietUntil(states: seq<State>, events: seq<Event>, i: nat, j: nat)
    requires IsRun(states, events) && i <= j < |states| && NoPoll(events, i, j)
    ensures states[j].mark == states[i].mark && states[i].store <= states[j].store
    decreases j - i
  {
    if i < j {
      QuietUntil(states, events, i, j - 1);
      assert Step(states[j - 1], events[j - 1], states[j]);
    }
  }

  /**
   An incoming row is handed out by the first poll after it arrived, when it was
   not behind the watermark then, and by no other poll.
   */
  lemma ExactlyOnce(states: seq<State>, events: seq<Event>, i: nat, j: nat, row: Row)
    requires IsRun(states, events) && i < j < |events| && events[j].Poll?
    requires events[i] == Insert(row) && !row.fromMe
    ensures Returned(states, events, j, row) <==> row.time >= states[i].mark.time && NoPoll(events, i, j)
  {
    hide UniqueIds;
    assert Step(states[i], events[i], states[i + 1]);
    if NoPoll(events, i, j) {
      QuietUntil(states, events, i, j);
      QuietUntil(states, events, i + 1, j);
      RunKeeps(states, events, i);
      assert row.id !in states[i].mark.ids;
    } else {
      var k := LastQuiet(events, i, j);
      QuietUntil(states, events, i, k);
      QuietUntil(states, events, i + 1, k);
      assert Step(states[k], events[k], states[k + 1]);
      SettledStays(states[k], events[k], states[k + 1], row);
      RunKeeps(states, events, k);
      StepKeeps(states[k], events[k], states[k + 1]);
      SettledForever(states, events, k + 1, j, row);
    }
  }

  /** The first poll from i on. */
  lemma {:induction false} LastQuiet(events: seq<Event>, i: nat, j: nat) returns (k: nat)
    requires i < j <= |events| && !NoPoll(events, i, j)
    ensures i <= k < j && events[k].Poll? && NoPoll(events, i, k)
    decreases j - i
  {
    if events[i].Poll? {
      k := i;
    } else {
      k := LastQuiet(events, i + 1, j);
    }
  }

  // ── The first run ──

  ghost predicate IsNewest(store: set<Row>, newest: Timestamp) {
    && (forall r :: r in store ==> r.time <= newest)
    && (newest == NO_TIME || exists r :: r in store && r.time == newest)
  }

  /** A run from the seeded watermark. */
  ghost predicate IsFirstRun(states: seq<State>, events: seq<Event>, newest: Timestamp) {
    && IsRun(states, events) && IsNewest(states[0].store, newest)
    && states[0].mark == Seeded(states[0].store, newest)
  }

  /** With any timestamp to start behind, no row present at seeding is ever handed out. */
  lemma BacklogStaysUnanswered(states: seq<State>, events: seq<Event>, newest: Timestamp, j: nat, row: Row)
    requires IsFirstRun(states, events, newest) && newest != NO_TIME
    requires j < |events| && row in states[0].store
    ensures !Returned(states, events, j, row)
  {
    if !row.fromMe {
      assert Settled(states[0], row);
      SettledForever(states, events, 0, j, row);
    }
  }

  /**
   The backlog is safe in every first run on a store exactly when some message
   has a timestamp or none is incoming: with only empty timestamps the seed takes
   them for "no messages yet", and the first poll hands the backlog out.
   */
  lemma BacklogSafeExactly(store: set<Row>, newest: Timestamp)
    requires UniqueIds(store) && IsNewest(store, newest)
    ensures (forall states: seq<State>, events: seq<Event>, j: nat, row ::
               IsFirstRun(states, events, newest) && states[0].store == store && j < |events| && row in store ==>
                 !Returned(states, events, j, row))
            <==> (newest != NO_TIME || forall r :: r in store ==> r.fromMe)
  {
    if newest != NO_TIME {
      forall states: seq<State>, events: seq<Event>, j: nat, row |
        IsFirstRun(states, events, newest) && states[0].store == store && j < |events| && row in store
        ensures !Returned(states, events, j, row)
      {
        BacklogStaysUnanswered(states, events, newest, j, row);
      }
    } else if r :| r in store && !r.fromMe {
      var s := State(store, Seeded(store, newest));
      var next := Watermark(NO_TIME, set x | x in store && !x.fromMe && x.time == NO_TIME :: x.id);
      assert Selected(store, NO_TIME, r);
      assert Advanced(store, s.mark, next);
      var states, events := [s, State(store, next)], [Poll];
      assert IsFirstRun(states, events, newest);
      assert Returned(states, events, 0, r);
    }
  }
}
