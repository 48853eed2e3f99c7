/** Storing event rows chunk by chunk, with retries, crashes and restarts between and inside the
    chunks. */
module EventStore {
  import opened Types
  import opened EventRows
  import opened Retry

  const CHUNK_SIZE: nat := 500
  const RETRIES: nat := 10

  /** The primary key is the whole row, so a table is a set. */
  type EventTable = set<EventRow>

  datatype Insertion = Inserted(table: EventTable) | Duplicate | Inconsistent

  /** What befalls one attempt: nothing, the statement never arrives, or it is executed and the
      reply gets lost. */
  datatype Fate = Clear | Undelivered | ReplyLost

  /** The rows other writers store before an attempt, and what befalls it. */
  datatype Turn = Turn(others: EventTable, fate: Fate)

  /** `turns(k, i)` is the turn of attempt `i` at chunk `k`. */
  type Turns = (nat, nat) -> Turn

  /** The table, with an account of the rows in it, or written to it, that are not the run's. */
  datatype World = World(table: EventTable, foreign: EventTable) {
    function Join(others: EventTable): World {
      World(table + others, foreign + others)
    }

    function Add(rows: seq<EventRow>): World {
      this.(table := table + Set(rows))
    }
  }

  function Set(rows: seq<EventRow>): EventTable {
    set r | r in rows
  }

  /** The columns of the UNIQUE constraint. */
  function Key(r: EventRow): (Hash, nat) {
    (r.origin.receipt, r.index)
  }

  predicate Taken(table: EventTable, r: EventRow) {
    exists t :: t in table && Key(t) == Key(r)
  }

  /** One INSERT of several rows: all or none. The first offending row decides the violation, and
      the primary key is checked first. */
  function TryInsert(table: EventTable, rows: seq<EventRow>): Insertion {
    if rows == [] then Inserted(table)
    else
      var front, r := TryInsert(table, Front(rows)), Last(rows);
      if !front.Inserted? then front
      else if r in front.table then Duplicate
      else if Taken(front.table, r) then Inconsistent
      else Inserted(front.table + {r})
  }

  /** A primary-key violation counts as already written; any other error is tried again. */
  function InsertOnce(world: World, rows: seq<EventRow>, turn: Turn): (World, Answer) {
    var w := world.Join(turn.others);
    if turn.fate == Undelivered then (w, Error)
    else
      match TryInsert(w.table, rows)
      case Inserted(next) => (w.(table := next), if turn.fate == ReplyLost then Error else Ok)
      case Duplicate => (w, if turn.fate == ReplyLost then Error else Expected)
      case Inconsistent => (w, Error)
  }

  function InsertQuery(rows: seq<EventRow>, turns: nat -> Turn): Query<World> {
    (world: World, attempt: nat) => InsertOnce(world, rows, turns(attempt))
  }

  function Chunk(rows: seq<EventRow>, k: nat): seq<EventRow> {
    rows[Min(k * CHUNK_SIZE, |rows|)..Min((k + 1) * CHUNK_SIZE, |rows|)]
  }

  function ChunkCount(rows: seq<EventRow>): nat {
    (|rows| + CHUNK_SIZE - 1) / CHUNK_SIZE
  }

  /** Chunk after chunk, until one is given up: the world after the first `n`, and whether none was. */
  function FirstBy(store: (World, nat) -> (World, bool), world: World, n: nat): (World, bool) {
    if n == 0 then (world, true)
    else
      var (before, ok) := FirstBy(store, world, n - 1);
      if ok then store(before, n - 1) else (before, false)
  }

  function StoreFirst(world: World, rows: seq<EventRow>, turns: Turns, n: nat): (World, bool) {
    FirstBy(Storing(rows, turns), world, n)
  }

  function Storing(rows: seq<EventRow>, turns: Turns): (World, nat) -> (World, bool) {
    (world: World, k: nat) => var (after, outcome) := StoreChunk(world, rows, turns, k); (after, outcome != GaveUp)
  }

  function StoreChunk(world: World, rows: seq<EventRow>, turns: Turns, k: nat): (World, Outcome) {
    Await(InsertQuery(Chunk(rows, k), Over(turns, k)), world, 0, RETRIES)
  }

  function Over(turns: Turns, k: nat): nat -> Turn {
    (attempt: nat) => turns(k, attempt)
  }

  lemma {:induction false} FailureEnds(store: (World, nat) -> (World, bool), world: World, n: nat, m: nat)
    requires n <= m && !FirstBy(store, world, n).1
    ensures FirstBy(store, world, m) == FirstBy(store, world, n)
  {
    if n < m { FailureEnds(store, world, n, m - 1); }
  }

  class EventsTable {
    var world: World

    /** A failed chunk ends the storing. */
    method StoreRows(rows: seq<EventRow>, turns: Turns) returns (ok: bool)
      modifies this
      ensures (world, ok) == StoreFirst(old(world), rows, turns, ChunkCount(rows))
    {
      for k := 0 to ChunkCount(rows)
        invariant (world, true) == StoreFirst(old(world), rows, turns, k)
      {
        var next, outcome, _, _ := AwaitRetry(InsertQuery(Chunk(rows, k), Over(turns, k)), world, RETRIES);
        assert StoreChunk(world, rows, turns, k) == (next, outcome);
        world := next;
        assert StoreFirst(old(world), rows, turns, k + 1) == (world, outcome != GaveUp);
        if outcome == GaveUp {
          FailureEnds(Storing(rows, turns), old(world), k + 1, ChunkCount(rows));
          return false;
        }
      }
      return true;
    }

    method StoreFtEvents(events: seq<Emitted>, timestamp: nat, shard: nat, escape: Escape, turns: Turns)
      returns (ok: bool)
      requires forall e :: e in events ==> IsFt(e)
      modifies this
      ensures var rows := Numbered(Items(events, escape), timestamp, shard);
              (world, ok) == StoreFirst(old(world), rows, turns, ChunkCount(rows))
    {
      var rows := ComposeFtEvents(events, timestamp, shard, escape);
      ok := StoreRows(rows, turns);
    }

    method StoreNftEvents(events: seq<Emitted>, timestamp: nat, shard: nat, escape: Escape, turns: Turns)
      returns (ok: bool)
      requires forall e :: e in events ==> IsNft(e)
      modifies this
      ensures var rows := Numbered(Items(events, escape), timestamp, shard);
              (world, ok) == StoreFirst(old(world), rows, turns, ChunkCount(rows))
    {
      var rows := ComposeNftEvents(events, timestamp, shard, escape);
      ok := StoreRows(rows, turns);
    }
  }

  // ---- One insert ------------------------------------------------------------------------------

  predicate DistinctKeys(rows: seq<EventRow>) {
    forall i, j :: 0 <= i < j < |rows| ==> Key(rows[i]) != Key(rows[j])
  }

  predicate Fresh(table: EventTable, rows: seq<EventRow>) {
    forall r :: r in rows ==> !Taken(table, r)
  }

  predicate Stored(table: EventTable, rows: seq<EventRow>) {
    forall r :: r in rows ==> r in table
  }

  /** The rows of a shard differ in their index. */
  lemma NumberedKeys(items: seq<Item>, timestamp: nat, shard: nat)
    ensures DistinctKeys(Numbered(items, timestamp, shard))
  {
  }

  lemma FreshOneMore(table: EventTable, rows: seq<EventRow>, r: EventRow)
    ensures Fresh(table, rows + [r]) <==> Fresh(table, rows) && !Taken(table, r)
  {
    assert r in rows + [r];
  }

  lemma TakenOfUnion(table: EventTable, more: EventTable, r: EventRow)
    ensures Taken(table + more, r) <==> Taken(table, r) || Taken(more, r)
  {
  }

  /** Rows of other keys do not take a row's key. */
  lemma TakenAfter(table: EventTable, front: seq<EventRow>, r: EventRow)
    requires forall q :: q in front ==> Key(q) != Key(r)
    ensures Taken(table + Set(front), r) <==> Taken(table, r)
    ensures r in table + Set(front) ==> Taken(table, r)
  {
    TakenOfUnion(table, Set(front), r);
    assert !Taken(Set(front), r);
  }

  /** All rows go in exactly when none of their keys is taken. */
  lemma {:induction false} InsertsExactly(table: EventTable, rows: seq<EventRow>)
    requires DistinctKeys(rows)
    ensures TryInsert(table, rows).Inserted? <==> Fresh(table, rows)
    ensures Fresh(table, rows) ==> TryInsert(table, rows).table == table + Set(rows)
  {
    if rows != [] {
      var front, r := Front(rows), Last(rows);
      assert rows == front + [r] && Set(rows) == Set(front) + {r};
      InsertsExactly(table, front);
      FreshOneMore(table, front, r);
      TakenAfter(table, front, r);
    }
  }

  /** Row `i` is the first whose key is taken. */
  predicate FirstTaken(table: EventTable, rows: seq<EventRow>, i: nat) {
    i < |rows| && Taken(table, rows[i]) && Fresh(table, rows[..i])
  }

  /** The first row whose key is taken decides: it is a duplicate exactly when it is there itself. */
  lemma {:induction false} FirstTakenDecides(table: EventTable, rows: seq<EventRow>, i: nat)
    requires DistinctKeys(rows) && FirstTaken(table, rows, i)
    ensures TryInsert(table, rows) == if rows[i] in table then Duplicate else Inconsistent
  {
    var front := Front(rows);
    if i < |front| {
      assert front[..i] == rows[..i];
      FirstTakenDecides(table, front, i);
    } else {
      assert front == rows[..i];
      InsertsExactly(table, front);
      TakenAfter(table, front, rows[i]);
    }
  }

  lemma {:induction false} SomeFirstTaken(table: EventTable, rows: seq<EventRow>) returns (i: nat)
    requires !Fresh(table, rows)
    ensures FirstTaken(table, rows, i)
  {
    var front, r := Front(rows), Last(rows);
    assert rows == front + [r];
    FreshOneMore(table, front, r);
    if Fresh(table, front) {
      i := |front|;
    } else {
      i := SomeFirstTaken(table, front);
      assert rows[..i] == front[..i];
    }
  }

  // ---- One chunk -------------------------------------------------------------------------------

  /** The answer of the database when nothing befalls the statement. */
  predicate Acceptable(table: EventTable, rows: seq<EventRow>) {
    !TryInsert(table, rows).Inconsistent?
  }

  /** None of these rows' keys is taken, or all these rows are there. */
  predicate Whole(table: EventTable, rows: seq<EventRow>) {
    Fresh(table, rows) || Stored(table, rows)
  }

  lemma WholeIsAcceptable(table: EventTable, rows: seq<EventRow>)
    requires DistinctKeys(rows) && Whole(table, rows)
    ensures Acceptable(table, rows)
  {
    InsertsExactly(table, rows);
    if !Fresh(table, rows) {
      var i := SomeFirstTaken(table, rows);
      FirstTakenDecides(table, rows, i);
    }
  }

  lemma StoredAfterAdding(table: EventTable, rows: seq<EventRow>)
    ensures Stored(table + Set(rows), rows)
    ensures rows != [] ==> !Fresh(table + Set(rows), rows)
  {
    if rows != [] { assert rows[0] in Set(rows) && Taken(table + Set(rows), rows[0]); }
  }

  /** For these rows the two tables look the same. */
  predicate Same(old_: EventTable, new_: EventTable, rows: seq<EventRow>) {
    forall r :: r in rows ==> (r in old_ <==> r in new_) && (Taken(old_, r) <==> Taken(new_, r))
  }

  lemma OthersLeaveSame(table: EventTable, others: EventTable, rows: seq<EventRow>)
    requires Fresh(others, rows)
    ensures Same(table, table + others, rows)
  {
    forall r | r in rows
      ensures (r in table + others <==> r in table) && (Taken(table + others, r) <==> Taken(table, r))
    {
      TakenOfUnion(table, others, r);
      assert !Taken(others, r);
    }
  }

  lemma SameAnswer(table: EventTable, next: EventTable, rows: seq<EventRow>)
    requires DistinctKeys(rows) && Same(table, next, rows)
    ensures Fresh(table, rows) <==> Fresh(next, rows)
    ensures Acceptable(table, rows) <==> Acceptable(next, rows)
  {
    InsertsExactly(table, rows);
    InsertsExactly(next, rows);
    if !Fresh(table, rows) {
      var i := SomeFirstTaken(table, rows);
      assert FirstTaken(next, rows, i);
      FirstTakenDecides(table, rows, i);
      FirstTakenDecides(next, rows, i);
    }
  }

  predicate SomeClear(turns: nat -> Turn, from: nat) {
    exists i :: from <= i < RETRIES && turns(i).fate == Clear
  }

  /** What others bring of these rows: nothing that takes their keys, or all of them; and that only to
      a table that did not hold a part of them. */
  predicate BringsChunk(table: EventTable, rows: seq<EventRow>, others: EventTable) {
    Fresh(others, rows) || (Stored(others, rows) && Whole(table, rows))
  }

  /** One attempt: the others' rows come, and the chunk wholly or not at all. */
  lemma OneAttempt(world: World, rows: seq<EventRow>, turn: Turn)
    requires DistinctKeys(rows) && BringsChunk(world.table, rows, turn.others)
    ensures var w, (next, answer) := world.Join(turn.others), InsertOnce(world, rows, turn);
            && (Fresh(w.table, rows) ==> Fresh(world.table, rows))
            && (next == w || (Fresh(w.table, rows) && next == w.Add(rows)))
            && (Acceptable(next.table, rows) <==> Acceptable(world.table, rows))
            && (Whole(world.table, rows) ==> Whole(next.table, rows))
            && (answer != Error <==> turn.fate == Clear && Acceptable(world.table, rows))
            && (answer != Error && Fresh(world.table, rows) ==> Stored(next.table, rows))
  {
    var w := world.Join(turn.others);
    InsertsExactly(w.table, rows);
    StoredAfterAdding(w.table, rows);
    if Fresh(turn.others, rows) {
      OthersLeaveSame(world.table, turn.others, rows);
      SameAnswer(world.table, w.table, rows);
    } else {
      WholeIsAcceptable(world.table, rows);
      WholeIsAcceptable(w.table, rows);
    }
    var (next, answer) := InsertOnce(world, rows, turn);
    if next != w {
      WholeIsAcceptable(w.table, rows);
      WholeIsAcceptable(next.table, rows);
    }
  }

  lemma JoinTwice(world: World, rows: seq<EventRow>, o: EventTable, more: EventTable)
    ensures world.Join(o).Join(more) == world.Join(o + more)
    ensures world.Join(o).Add(rows).Join(more) == world.Join(o + more).Add(rows)
    ensures world.Join(o).Add(rows).Join(more).Add(rows) == world.Join(o + more).Add(rows)
  {
  }

  lemma FreshUnion(o: EventTable, more: EventTable, rows: seq<EventRow>)
    requires Fresh(o, rows) && Fresh(more, rows)
    ensures Fresh(o + more, rows)
  {
    forall r | r in rows ensures !Taken(o + more, r) { TakenOfUnion(o, more, r); }
  }

  // ---- The chunks of the rows ------------------------------------------------------------------

  lemma ChunkRows(rows: seq<EventRow>, k: nat)
    requires DistinctKeys(rows)
    ensures DistinctKeys(Chunk(rows, k))
    ensures forall r :: r in Chunk(rows, k) ==> r in rows
  {
  }

  /** Chunk `k` is the rows from 500 * k on: 500 of them, or in the last chunk what is left. */
  lemma ChunkIs(rows: seq<EventRow>, k: nat)
    requires k < ChunkCount(rows)
    ensures 0 < |Chunk(rows, k)| <= 500 && 500 * k + |Chunk(rows, k)| <= |rows|
    ensures k + 1 < ChunkCount(rows) ==> |Chunk(rows, k)| == 500
    ensures k + 1 == ChunkCount(rows) ==> 500 * k + |Chunk(rows, k)| == |rows|
    ensures forall i :: 0 <= i < |Chunk(rows, k)| ==> Chunk(rows, k)[i] == rows[500 * k + i]
  {
  }

  lemma SomeChunk(rows: seq<EventRow>, i: nat) returns (k: nat)
    requires i < |rows|
    ensures k < ChunkCount(rows) && rows[i] in Chunk(rows, k)
  {
    k := i / CHUNK_SIZE;
    assert Chunk(rows, k)[i - k * CHUNK_SIZE] == rows[i];
  }

  lemma ChunksApart(rows: seq<EventRow>, j: nat, k: nat)
    requires DistinctKeys(rows) && j != k
    ensures forall r, q :: r in Chunk(rows, j) && q in Chunk(rows, k) ==> Key(r) != Key(q)
  {
    if k < j {
      ChunksApart(rows, k, j);
    } else {
      assert Min((j + 1) * CHUNK_SIZE, |rows|) <= Min(k * CHUNK_SIZE, |rows|);
    }
  }

  // ---- What others write -----------------------------------------------------------------------

  /** No other row under a key of these rows. */
  ghost predicate Agrees(table: EventTable, rows: seq<EventRow>) {
    forall t, r :: t in table && r in rows && Key(t) == Key(r) ==> t == r
  }

  predicate WholeChunk(table: EventTable, rows: seq<EventRow>, k: nat) {
    Whole(table, Chunk(rows, k))
  }

  ghost predicate WholeChunks(table: EventTable, rows: seq<EventRow>) {
    forall k: nat :: WholeChunk(table, rows, k)
  }

  /** Other writers, be they another indexer with the same rows, bring rows of other keys and whole
      chunks of the run; not those that the table, as the run found it, holds in part. */
  ghost predicate Brings(table: EventTable, rows: seq<EventRow>, others: EventTable) {
    && Agrees(others, rows)
    && (forall k: nat :: BringsChunk(table, Chunk(rows, k), others))
  }

  lemma BringsNothing(table: EventTable, rows: seq<EventRow>)
    ensures Brings(table, rows, {})
  {
  }

  lemma BringsUnion(table: EventTable, rows: seq<EventRow>, o: EventTable, more: EventTable)
    requires Brings(table, rows, o) && Brings(table, rows, more)
    ensures Brings(table, rows, o + more)
  {
    forall k: nat ensures BringsChunk(table, Chunk(rows, k), o + more) {
      assert BringsChunk(table, Chunk(rows, k), o) && BringsChunk(table, Chunk(rows, k), more);
      if Fresh(o, Chunk(rows, k)) && Fresh(more, Chunk(rows, k)) { FreshUnion(o, more, Chunk(rows, k)); }
    }
  }

  ghost predicate TurnsBring(table: EventTable, rows: seq<EventRow>, turns: nat -> Turn) {
    forall i: nat :: Brings(table, rows, turns(i).others)
  }

  /** How the attempts at a chunk end, with the others' rows `o` that came meanwhile: the chunk wholly
      or not at all; success needs a consistent table and one attempt that gets through, and no more. */
  ghost predicate Awaited(world: World, chunk: seq<EventRow>, o: EventTable, after: World, ok: bool, through: bool) {
    && (after == world.Join(o) || (Fresh(world.table, chunk) && after == world.Join(o).Add(chunk)))
    && (Fresh(world.table, chunk) && ok ==> Stored(after.table, chunk))
    && (ok <==> Acceptable(world.table, chunk) && through)
  }

  /** An attempt that fails hands over to the next. */
  lemma FailedAttempt(
    world: World, chunk: seq<EventRow>, turn: Turn, more: EventTable, after: World, ok: bool, through: bool)
    requires DistinctKeys(chunk) && BringsChunk(world.table, chunk, turn.others)
    requires InsertOnce(world, chunk, turn).1 == Error
    requires Awaited(InsertOnce(world, chunk, turn).0, chunk, more, after, ok, through)
    ensures Awaited(world, chunk, turn.others + more, after, ok, through || turn.fate == Clear)
  {
    OneAttempt(world, chunk, turn);
    JoinTwice(world, chunk, turn.others, more);
  }

  lemma LastAttempt(world: World, chunk: seq<EventRow>, turn: Turn)
    requires DistinctKeys(chunk) && BringsChunk(world.table, chunk, turn.others)
    requires InsertOnce(world, chunk, turn).1 != Error
    ensures Awaited(world, chunk, turn.others, InsertOnce(world, chunk, turn).0, true, true)
    ensures turn.fate == Clear
  {
    OneAttempt(world, chunk, turn);
  }

  lemma ClearFrom(turns: nat -> Turn, made: nat)
    requires made < RETRIES
    ensures SomeClear(turns, made) <==> turns(made).fate == Clear || SomeClear(turns, made + 1)
  {
  }

  lemma StillWhole(world: World, chunk: seq<EventRow>, turn: Turn)
    requires DistinctKeys(chunk) && BringsChunk(world.table, chunk, turn.others) && Whole(world.table, chunk)
    ensures Whole(InsertOnce(world, chunk, turn).0.table, chunk)
  {
    OneAttempt(world, chunk, turn);
  }

  /** All attempts at chunk `n` of a run that began with `table`. */
  lemma {:induction false} AwaitInsert(
    table: EventTable, world: World, rows: seq<EventRow>, n: nat, turns: nat -> Turn, made: nat)
    returns (o: EventTable)
    requires DistinctKeys(rows) && TurnsBring(table, rows, turns) && made <= RETRIES
    requires WholeChunk(table, rows, n) ==> WholeChunk(world.table, rows, n)
    ensures Brings(table, rows, o)
    ensures var (after, outcome) := Await(InsertQuery(Chunk(rows, n), turns), world, made, RETRIES);
            Awaited(world, Chunk(rows, n), o, after, outcome != GaveUp, SomeClear(turns, made))
    decreases RETRIES - made
  {
    if made == RETRIES {
      assert world.Join({}) == world;
      BringsNothing(table, rows);
      return {};
    }
    var chunk, turn := Chunk(rows, n), turns(made);
    o := turn.others;
    assert Brings(table, rows, o) && BringsChunk(table, chunk, o);
    ChunkRows(rows, n);
    ClearFrom(turns, made);
    var (next, answer) := InsertOnce(world, chunk, turn);
    if answer == Error {
      if WholeChunk(table, rows, n) { StillWhole(world, chunk, turn); }
      var more := AwaitInsert(table, next, rows, n, turns, made + 1);
      var (after, outcome) := Await(InsertQuery(chunk, turns), next, made + 1, RETRIES);
      FailedAttempt(world, chunk, turn, more, after, outcome != GaveUp, SomeClear(turns, made + 1));
      BringsUnion(table, rows, o, more);
      o := o + more;
    } else {
      LastAttempt(world, chunk, turn);
    }
  }

  // ---- A run, from any table -------------------------------------------------------------------

  /** Nothing is dropped; what is added is a row of the run or accounted as foreign; and no foreign
      row contradicts one of the run. */
  ghost predicate Between(old_: World, new_: World, rows: seq<EventRow>) {
    && old_.table <= new_.table <= old_.table + new_.foreign + Set(rows)
    && old_.foreign <= new_.foreign <= old_.foreign + new_.table
    && (Agrees(old_.foreign, rows) ==> Agrees(new_.foreign, rows))
  }

  lemma BetweenAgain(w0: World, w1: World, w2: World, rows: seq<EventRow>)
    requires Between(w0, w1, rows) && Between(w1, w2, rows)
    ensures Between(w0, w2, rows)
  {
  }

  lemma ChunkBetween(before: World, o: EventTable, rows: seq<EventRow>, n: nat)
    requires Agrees(o, rows)
    ensures Between(before, before.Join(o), rows) && Between(before, before.Join(o).Add(Chunk(rows, n)), rows)
  {
  }

  /** These rows were left alone, or they were new and are now there. */
  predicate KeptRows(old_: EventTable, new_: EventTable, rows: seq<EventRow>) {
    Same(old_, new_, rows) || (Fresh(old_, rows) && Stored(new_, rows))
  }

  predicate Kept(old_: EventTable, new_: EventTable, rows: seq<EventRow>, k: nat) {
    KeptRows(old_, new_, Chunk(rows, k))
  }

  lemma KeptStaysWhole(table: EventTable, after: EventTable, rows: seq<EventRow>)
    requires KeptRows(table, after, rows) && Whole(table, rows)
    ensures Whole(after, rows)
  {
  }

  lemma BroughtIsKept(table: EventTable, before: EventTable, others: EventTable, rows: seq<EventRow>)
    requires KeptRows(table, before, rows) && BringsChunk(table, rows, others)
    ensures KeptRows(table, before + others, rows)
  {
    if Fresh(others, rows) { OthersLeaveSame(before, others, rows); }
  }

  lemma AddedElsewhere(table: EventTable, rows: seq<EventRow>, j: nat, k: nat)
    requires DistinctKeys(rows) && j != k
    ensures Same(table, table + Set(Chunk(rows, j)), Chunk(rows, k))
  {
    ChunksApart(rows, j, k);
    assert Fresh(Set(Chunk(rows, j)), Chunk(rows, k));
    OthersLeaveSame(table, Set(Chunk(rows, j)), Chunk(rows, k));
  }

  /** What the first `n` chunks of a run do to the table: each chunk is added wholly or not at all,
      and after success every new chunk is there. */
  ghost predicate RunKept(table: EventTable, after: EventTable, rows: seq<EventRow>, n: nat, ok: bool) {
    && (forall k: nat :: Kept(table, after, rows, k))
    && (ok ==> forall k: nat :: k < n && Fresh(table, Chunk(rows, k)) ==> Stored(after, Chunk(rows, k)))
  }

  lemma OthersKeep(table: EventTable, before: EventTable, others: EventTable, rows: seq<EventRow>, n: nat)
    requires RunKept(table, before, rows, n, true) && Brings(table, rows, others)
    ensures RunKept(table, before + others, rows, n, true)
  {
    forall k: nat ensures Kept(table, before + others, rows, k) {
      assert Kept(table, before, rows, k) && BringsChunk(table, Chunk(rows, k), others);
      BroughtIsKept(table, before, others, Chunk(rows, k));
    }
  }

  lemma ChunkAdded(table: EventTable, before: EventTable, rows: seq<EventRow>, n: nat)
    requires DistinctKeys(rows) && RunKept(table, before, rows, n, true) && Fresh(before, Chunk(rows, n))
    ensures RunKept(table, before + Set(Chunk(rows, n)), rows, n + 1, true)
  {
    var after := before + Set(Chunk(rows, n));
    StoredAfterAdding(before, Chunk(rows, n));
    forall k: nat ensures Kept(table, after, rows, k) {
      assert Kept(table, before, rows, k);
      if k != n { AddedElsewhere(before, rows, n, k); }
    }
    forall k: nat | k < n + 1 && Fresh(table, Chunk(rows, k)) ensures Stored(after, Chunk(rows, k)) {}
  }

  lemma ChunkLeft(table: EventTable, before: EventTable, rows: seq<EventRow>, n: nat, ok: bool)
    requires RunKept(table, before, rows, n, true)
    requires ok && Fresh(table, Chunk(rows, n)) ==> Stored(before, Chunk(rows, n))
    ensures RunKept(table, before, rows, n + 1, ok)
  {
  }

  /** One chunk, with the others' rows `o` that come before it. */
  lemma ChunkCase(table: EventTable, before: EventTable, o: EventTable, after: EventTable, ok: bool,
      rows: seq<EventRow>, n: nat)
    requires DistinctKeys(rows) && RunKept(table, before, rows, n, true) && Brings(table, rows, o)
    requires after == before + o || (Fresh(before, Chunk(rows, n)) && after == before + o + Set(Chunk(rows, n)))
    requires Fresh(before, Chunk(rows, n)) && ok ==> Stored(after, Chunk(rows, n))
    ensures RunKept(table, after, rows, n + 1, ok)
  {
    var chunk := Chunk(rows, n);
    OthersKeep(table, before, o, rows, n);
    assert Kept(table, before, rows, n) && BringsChunk(table, chunk, o);
    if after != before + o && Fresh(o, chunk) {
      OthersLeaveSame(before, o, chunk);
      ChunkAdded(table, before + o, rows, n);
    } else {
      if Stored(o, chunk) { assert before + o + Set(chunk) == before + o; }
      ChunkLeft(table, before + o, rows, n, ok);
    }
  }

  lemma ChunkKeeps(table: EventTable, before: World, rows: seq<EventRow>, turns: nat -> Turn, n: nat)
    requires DistinctKeys(rows) && TurnsBring(table, rows, turns) && RunKept(table, before.table, rows, n, true)
    ensures var (after, outcome) := Await(InsertQuery(Chunk(rows, n), turns), before, 0, RETRIES);
            Between(before, after, rows) && RunKept(table, after.table, rows, n + 1, outcome != GaveUp)
  {
    assert Kept(table, before.table, rows, n);
    if WholeChunk(table, rows, n) { KeptStaysWhole(table, before.table, Chunk(rows, n)); }
    var o := AwaitInsert(table, before, rows, n, turns, 0);
    ChunkBetween(before, o, rows, n);
    var (after, outcome) := Await(InsertQuery(Chunk(rows, n), turns), before, 0, RETRIES);
    ChunkCase(table, before.table, o, after.table, outcome != GaveUp, rows, n);
  }

  ghost predicate AllTurnsBring(table: EventTable, rows: seq<EventRow>, turns: Turns) {
    forall k: nat :: TurnsBring(table, rows, Over(turns, k))
  }

  ghost predicate KeepsEach(store: (World, nat) -> (World, bool), table: EventTable, rows: seq<EventRow>) {
    forall w: World, k: nat ::
      RunKept(table, w.table, rows, k, true) ==>
        Between(w, store(w, k).0, rows) && RunKept(table, store(w, k).0.table, rows, k + 1, store(w, k).1)
  }

  lemma {:induction false} FirstKeep(store: (World, nat) -> (World, bool), world: World, rows: seq<EventRow>, n: nat)
    requires KeepsEach(store, world.table, rows)
    ensures var (after, ok) := FirstBy(store, world, n);
            RunKept(world.table, after.table, rows, n, ok) && Between(world, after, rows)
  {
    if n > 0 {
      FirstKeep(store, world, rows, n - 1);
      var (before, ok) := FirstBy(store, world, n - 1);
      if ok { BetweenAgain(world, before, store(before, n - 1).0, rows); }
    }
  }

  /** Whatever others bring before any attempt, a run drops nothing, adds only its own rows, and each
      chunk wholly or not at all. */
  lemma RunKeeps(world: World, rows: seq<EventRow>, turns: Turns, n: nat)
    requires DistinctKeys(rows) && AllTurnsBring(world.table, rows, turns)
    ensures var (after, ok) := StoreFirst(world, rows, turns, n);
            RunKept(world.table, after.table, rows, n, ok) && Between(world, after, rows)
  {
    forall w: World, k: nat | RunKept(world.table, w.table, rows, k, true)
      ensures var (after, ok) := Storing(rows, turns)(w, k);
              Between(w, after, rows) && RunKept(world.table, after.table, rows, k + 1, ok)
    {
      ChunkKeeps(world.table, w, rows, Over(turns, k), k);
    }
    FirstKeep(Storing(rows, turns), world, rows, n);
  }

  /** A run that reports success has stored all its rows exactly when it found every chunk wholly
      new or wholly there: a chunk of which another writer stored a part is taken for written. */
  lemma RunStoresExactly(world: World, rows: seq<EventRow>, turns: Turns)
    requires DistinctKeys(rows) && AllTurnsBring(world.table, rows, turns)
    requires StoreFirst(world, rows, turns, ChunkCount(rows)).1
    ensures Stored(StoreFirst(world, rows, turns, ChunkCount(rows)).0.table, rows)
            <==> forall k: nat :: k < ChunkCount(rows) ==> WholeChunk(world.table, rows, k)
  {
    var n := ChunkCount(rows);
    var after := StoreFirst(world, rows, turns, n).0.table;
    RunKeeps(world, rows, turns, n);
    if Stored(after, rows) {
      forall k: nat | k < n ensures WholeChunk(world.table, rows, k) {
        ChunkRows(rows, k);
        assert Kept(world.table, after, rows, k);
      }
    }
    if forall k: nat :: k < n ==> WholeChunk(world.table, rows, k) {
      forall r | r in rows ensures r in after {
        var i :| 0 <= i < |rows| && rows[i] == r;
        var k := SomeChunk(rows, i);
        assert Kept(world.table, after, rows, k) && WholeChunk(world.table, rows, k);
      }
    }
  }

  /** Another writer with other chunk borders stored only the second row of a chunk: the first row
      is never stored, and the run reports success. */
  lemma PartOfAChunkIsLost(first: EventRow, second: EventRow, turns: Turns)
    requires Key(first) != Key(second) && turns(0, 0) == Turn({}, Clear)
    ensures var world := World({second}, {second});
            StoreFirst(world, [first, second], turns, ChunkCount([first, second])) == (world, true)
  {
    var rows, world := [first, second], World({second}, {second});
    assert ChunkCount(rows) == 1 && Chunk(rows, 0) == rows;
    assert FirstTaken({second}, rows, 1);
    FirstTakenDecides({second}, rows, 1);
    assert TryInsert({second}, rows) == Duplicate;
    assert Over(turns, 0)(0) == Turn({}, Clear) && world.Join({}) == world;
    assert InsertOnce(world, rows, Turn({}, Clear)) == (world, Expected);
    assert InsertQuery(rows, Over(turns, 0))(world, 0) == (world, Expected);
    assert StoreFirst(world, rows, turns, 0) == (world, true);
    assert StoreChunk(world, rows, turns, 0) == (world, Handled);
  }

  // ---- Crashes and restarts --------------------------------------------------------------------

  /** A run of the indexer that ends, by a crash or a failure, within its first chunks, or that ran
      to its end; or rows others stored between the runs. */
  datatype Happening =
    | Run(chunks: nat, turns: Turns)
    | Others(rows: EventTable)

  function After(world: World, rows: seq<EventRow>, history: seq<Happening>): World {
    if history == [] then world
    else
      var before := After(world, rows, Front(history));
      match Last(history)
      case Run(chunks, turns) => StoreFirst(before, rows, turns, chunks).0
      case Others(others) => before.Join(others)
  }

  /** Rows of other keys, and whole chunks of the run. */
  ghost predicate Mixed(rows: seq<EventRow>, others: EventTable) {
    Agrees(others, rows) && WholeChunks(others, rows)
  }

  ghost predicate AllTurnsMixed(rows: seq<EventRow>, turns: Turns) {
    forall k: nat, i: nat :: Mixed(rows, turns(k, i).others)
  }

  ghost predicate HistoryMixed(rows: seq<EventRow>, history: seq<Happening>) {
    forall h :: h in history ==> if h.Run? then AllTurnsMixed(rows, h.turns) else Mixed(rows, h.rows)
  }

  lemma MixedBrings(table: EventTable, rows: seq<EventRow>, others: EventTable)
    requires WholeChunks(table, rows) && Mixed(rows, others)
    ensures Brings(table, rows, others)
  {
    forall k: nat ensures BringsChunk(table, Chunk(rows, k), others) {
      assert WholeChunk(table, rows, k) && WholeChunk(others, rows, k);
    }
  }

  lemma AllMixedBring(table: EventTable, rows: seq<EventRow>, turns: Turns)
    requires WholeChunks(table, rows) && AllTurnsMixed(rows, turns)
    ensures AllTurnsBring(table, rows, turns)
  {
    forall k: nat, i: nat ensures Brings(table, rows, Over(turns, k)(i).others) {
      MixedBrings(table, rows, turns(k, i).others);
    }
  }

  /** Before the first run, all there is is foreign. */
  function Start(base: EventTable): World {
    World(base, base)
  }

  lemma StaysWhole(table: EventTable, after: EventTable, rows: seq<EventRow>)
    requires WholeChunks(table, rows) && forall k: nat :: Kept(table, after, rows, k)
    ensures WholeChunks(after, rows)
  {
    forall k: nat ensures WholeChunk(after, rows, k) {
      assert WholeChunk(table, rows, k) && Kept(table, after, rows, k);
      KeptStaysWhole(table, after, Chunk(rows, k));
    }
  }

  lemma HappeningKeeps(before: World, rows: seq<EventRow>, h: Happening)
    requires DistinctKeys(rows) && WholeChunks(before.table, rows) && HistoryMixed(rows, [h])
    ensures var after := if h.Run? then StoreFirst(before, rows, h.turns, h.chunks).0 else before.Join(h.rows);
            WholeChunks(after.table, rows) && Between(before, after, rows)
  {
    assert h in [h];
    if h.Run? {
      AllMixedBring(before.table, rows, h.turns);
      RunKeeps(before, rows, h.turns, h.chunks);
      StaysWhole(before.table, StoreFirst(before, rows, h.turns, h.chunks).0.table, rows);
    } else {
      MixedBrings(before.table, rows, h.rows);
      OthersKeep(before.table, before.table, h.rows, rows, 0);
      StaysWhole(before.table, before.table + h.rows, rows);
      ChunkBetween(before, h.rows, rows, 0);
    }
  }

  /** Whatever happened, every chunk is wholly there or wholly missing, and nothing else changed. */
  lemma {:induction false} HistoryKeeps(base: EventTable, rows: seq<EventRow>, history: seq<Happening>)
    requires DistinctKeys(rows) && Mixed(rows, base) && HistoryMixed(rows, history)
    ensures WholeChunks(After(Start(base), rows, history).table, rows)
    ensures Between(Start(base), After(Start(base), rows, history), rows)
  {
    if history != [] {
      var front, h := Front(history), Last(history);
      assert h in history && forall x :: x in front ==> x in history;
      HistoryKeeps(base, rows, front);
      HappeningKeeps(After(Start(base), rows, front), rows, h);
      BetweenAgain(Start(base), After(Start(base), rows, front), After(Start(base), rows, history), rows);
    }
  }

  // ---- The account of foreign rows is right ----------------------------------------------------

  lemma {:induction false} AwaitForeign(world: World, chunk: seq<EventRow>, turns: nat -> Turn, made: nat, r: EventRow)
    requires made <= RETRIES && r in Await(InsertQuery(chunk, turns), world, made, RETRIES).0.foreign
    ensures r in world.foreign || exists i: nat :: r in turns(i).others
    decreases RETRIES - made
  {
    if made < RETRIES {
      var (next, answer) := InsertOnce(world, chunk, turns(made));
      if answer == Error { AwaitForeign(next, chunk, turns, made + 1, r); }
    }
  }

  ghost predicate Brought(turns: Turns, r: EventRow) {
    exists k: nat, i: nat :: r in turns(k, i).others
  }

  lemma {:induction false} FirstForeign(world: World, rows: seq<EventRow>, turns: Turns, n: nat, r: EventRow)
    requires r in StoreFirst(world, rows, turns, n).0.foreign
    ensures r in world.foreign || Brought(turns, r)
  {
    if n > 0 {
      var (before, ok) := StoreFirst(world, rows, turns, n - 1);
      if ok { AwaitForeign(before, Chunk(rows, n - 1), Over(turns, n - 1), 0, r); }
      if r in before.foreign {
        FirstForeign(world, rows, turns, n - 1, r);
      } else {
        var i: nat :| r in Over(turns, n - 1)(i).others;
        assert r in turns(n - 1, i).others;
      }
    }
  }

  /** What is accounted as foreign was there before or was written by others. */
  lemma {:induction false} ForeignIsForeign(base: EventTable, rows: seq<EventRow>, history: seq<Happening>, r: EventRow)
    requires r in After(Start(base), rows, history).foreign
    ensures r in base || exists h :: h in history && if h.Run? then Brought(h.turns, r) else r in h.rows
  {
    if history != [] {
      var front, h := Front(history), Last(history);
      var before := After(Start(base), rows, front);
      assert h in history && forall x :: x in front ==> x in history;
      if h.Run? { FirstForeign(before, rows, h.turns, h.chunks, r); }
      if r in before.foreign { ForeignIsForeign(base, rows, front, r); }
    }
  }

  /** One of the attempts at chunk `k` reaches the database and is answered. */
  predicate Reaches(turns: Turns, k: nat) {
    SomeClear(Over(turns, k), 0)
  }

  ghost predicate ReachesAll(turns: Turns, n: nat) {
    forall k: nat :: k < n ==> Reaches(turns, k)
  }

  lemma ReachesOneMore(turns: Turns, n: nat)
    ensures ReachesAll(turns, n + 1) <==> ReachesAll(turns, n) && Reaches(turns, n)
  {
  }

  predicate ChunkSucceeds(world: World, rows: seq<EventRow>, turns: Turns, k: nat) {
    StoreChunk(StoreFirst(world, rows, turns, k).0, rows, turns, k).1 != GaveUp
  }

  lemma SucceedsOneMore(world: World, rows: seq<EventRow>, turns: Turns, n: nat)
    ensures StoreFirst(world, rows, turns, n + 1).1 <==>
            StoreFirst(world, rows, turns, n).1 && ChunkSucceeds(world, rows, turns, n)
  {
  }

  lemma ChunkSucceedsExactly(world: World, rows: seq<EventRow>, turns: Turns, n: nat)
    requires DistinctKeys(rows) && AllTurnsMixed(rows, turns) && WholeChunks(world.table, rows)
    ensures ChunkSucceeds(world, rows, turns, n) <==> Reaches(turns, n)
  {
    AllMixedBring(world.table, rows, turns);
    RunKeeps(world, rows, turns, n);
    var before := StoreFirst(world, rows, turns, n).0;
    StaysWhole(world.table, before.table, rows);
    assert WholeChunk(before.table, rows, n);
    ChunkRows(rows, n);
    WholeIsAcceptable(before.table, Chunk(rows, n));
    var o := AwaitInsert(world.table, before, rows, n, Over(turns, n), 0);
  }

  /** The first `n` chunks succeed if and only if they are reached. */
  ghost predicate SucceedsAsReached(world: World, rows: seq<EventRow>, turns: Turns, n: nat) {
    StoreFirst(world, rows, turns, n).1 <==> ReachesAll(turns, n)
  }

  lemma OneMoreChunk(world: World, rows: seq<EventRow>, turns: Turns, n: nat)
    requires DistinctKeys(rows) && AllTurnsMixed(rows, turns) && WholeChunks(world.table, rows)
    requires SucceedsAsReached(world, rows, turns, n)
    ensures SucceedsAsReached(world, rows, turns, n + 1)
  {
    ChunkSucceedsExactly(world, rows, turns, n);
    SucceedsOneMore(world, rows, turns, n);
    ReachesOneMore(turns, n);
  }

  lemma RunSucceedsExactly(world: World, rows: seq<EventRow>, turns: Turns, n: nat)
    requires DistinctKeys(rows) && AllTurnsMixed(rows, turns) && WholeChunks(world.table, rows)
    ensures StoreFirst(world, rows, turns, n).1 <==> ReachesAll(turns, n)
  {
    for k := 0 to n
      invariant SucceedsAsReached(world, rows, turns, k)
    {
      OneMoreChunk(world, rows, turns, k);
    }
  }

  /** After any crashes, a rerun that reaches the database once in ten attempts at every chunk ends
      with exactly the rows beside those of others: none lost, and no other row under their keys. */
  lemma RerunCompletes(base: EventTable, rows: seq<EventRow>, history: seq<Happening>, turns: Turns)
    requires DistinctKeys(rows) && Mixed(rows, base) && HistoryMixed(rows, history) && AllTurnsMixed(rows, turns)
    ensures var (after, ok) := StoreFirst(After(Start(base), rows, history), rows, turns, ChunkCount(rows));
            && (ok <==> ReachesAll(turns, ChunkCount(rows)))
            && (ok ==> after.table == after.foreign + Set(rows) && Agrees(after.table, rows))
  {
    var before := After(Start(base), rows, history);
    HistoryKeeps(base, rows, history);
    RunSucceedsExactly(before, rows, turns, ChunkCount(rows));
    AllMixedBring(before.table, rows, turns);
    RunKeeps(before, rows, turns, ChunkCount(rows));
    var (after, ok) := StoreFirst(before, rows, turns, ChunkCount(rows));
    BetweenAgain(Start(base), before, after, rows);
    if ok { RunStoresExactly(before, rows, turns); }
  }

  /** Beside whole chunks of the shard's rows, only rows of other receipts than those of the events. */
  ghost predicate BesideShard(events: seq<Emitted>, rows: seq<EventRow>, table: EventTable) {
    && WholeChunks(table, rows)
    && (forall e, r :: e in events && r in table && r !in rows ==> e.1.receipt != r.origin.receipt)
  }

  /** The same for the rows of a shard: others, even another indexer of the shard, may write what they
      like about other receipts. */
  lemma ShardRerunCompletes(base: EventTable, events: seq<Emitted>, timestamp: nat, shard: nat, escape: Escape,
                            history: seq<Happening>, turns: Turns)
    requires var rows := Numbered(Items(events, escape), timestamp, shard);
             && BesideShard(events, rows, base)
             && (forall h :: h in history && h.Others? ==> BesideShard(events, rows, h.rows))
             && (forall h, k: nat, i: nat :: h in history && h.Run? ==> BesideShard(events, rows, h.turns(k, i).others))
             && (forall k: nat, i: nat :: BesideShard(events, rows, turns(k, i).others))
    ensures var rows := Numbered(Items(events, escape), timestamp, shard);
            var (after, ok) := StoreFirst(After(Start(base), rows, history), rows, turns, ChunkCount(rows));
            && (ok <==> ReachesAll(turns, ChunkCount(rows)))
            && (ok ==> after.table == after.foreign + Set(rows) && Agrees(after.table, rows))
  {
    var rows := Numbered(Items(events, escape), timestamp, shard);
    NumberedKeys(Items(events, escape), timestamp, shard);
    forall table | BesideShard(events, rows, table) ensures Mixed(rows, table) {
      BesideIsMixed(events, table, timestamp, shard, escape);
    }
    RerunCompletes(base, rows, history, turns);
  }

  lemma BesideIsMixed(events: seq<Emitted>, table: EventTable, timestamp: nat, shard: nat, escape: Escape)
    requires BesideShard(events, Numbered(Items(events, escape), timestamp, shard), table)
    ensures Mixed(Numbered(Items(events, escape), timestamp, shard), table)
  {
    var rows := Numbered(Items(events, escape), timestamp, shard);
    NumberedKeys(Items(events, escape), timestamp, shard);
    forall t, r | t in table && r in rows && Key(t) == Key(r) ensures t == r {
      ReceiptOfRow(events, r, timestamp, shard, escape);
      assert t in rows;
    }
  }

  lemma ReceiptOfRow(events: seq<Emitted>, r: EventRow, timestamp: nat, shard: nat, escape: Escape)
    requires r in Numbered(Items(events, escape), timestamp, shard)
    ensures exists e :: e in events && e.1.receipt == r.origin.receipt
  {
    var items := Items(events, escape);
    var p :| 0 <= p < |items| && RowOf(items[p], timestamp, shard, p) == r;
    FlatMapHolds(events, ItemsBy(escape), items[p]);
    var e :| e in events && items[p] in ItemsBy(escape)(e);
  }
}
