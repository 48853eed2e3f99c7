/** The rows of `accounts` and `access_keys` and the conditional statements that write them: every
    update is guarded by the height of the block that issues it. */
module GuardedRows {
  import opened Types

  datatype Row = Row(created: Option<Hash>, deleted: Option<Hash>, height: nat)

  /** The effect of one SQL statement on one row. */
  datatype Statement =
    | Skip                                  // the statement does not concern the row
    | Insert(row: Row)                      // on conflict do nothing
    | Delete(receipt: Hash, at: nat)        // where the height is lower
    | DeleteLive(receipt: Hash, at: nat)    // where the height is lower and the row is not deleted
    | Revive(row: Row)                      // where the height is lower and the row is deleted
    | Overwrite(row: Row)                   // where the height is lower
  {
    function Height(): nat {
      match this
      case Skip => 0
      case Insert(row) => row.height
      case Delete(_, h) => h
      case DeleteLive(_, h) => h
      case Revive(row) => row.height
      case Overwrite(row) => row.height
    }
  }

  function Exec(s: Statement, row: Option<Row>): Option<Row> {
    match row
    case None => if s.Insert? then Some(s.row) else None
    case Some(r) =>
      match s
      case Skip => row
      case Insert(_) => row
      case Delete(d, h) => if r.height < h then Some(r.(deleted := Some(d), height := h)) else row
      case DeleteLive(d, h) =>
        if r.height < h && r.deleted.None? then Some(r.(deleted := Some(d), height := h)) else row
      case Revive(n) => if r.height < n.height && r.deleted.Some? then Some(n) else row
      case Overwrite(n) => if r.height < n.height then Some(n) else row
  }

  function ExecAll(ss: seq<Statement>, row: Option<Row>): Option<Row> {
    if ss == [] then row else Exec(Last(ss), ExecAll(Front(ss), row))
  }

  lemma ExecShort(a: Statement, b: Statement, row: Option<Row>)
    ensures ExecAll([a], row) == Exec(a, row)
    ensures ExecAll([a, b], row) == Exec(b, Exec(a, row))
  {
    assert Front([a]) == [] && Front([a, b]) == [a];
  }

  lemma {:induction false} ExecAllConcat(a: seq<Statement>, b: seq<Statement>, row: Option<Row>)
    ensures ExecAll(a + b, row) == ExecAll(b, ExecAll(a, row))
  {
    if b == [] {
      assert a + b == a;
    } else {
      assert Front(a + b) == a + Front(b);
      ExecAllConcat(a, Front(b), row);
    }
  }

  /** A run: the statements each block issues to the row, in the order they reach it. */
  function ExecBlocks(blocks: seq<seq<Statement>>, row: Option<Row>): Option<Row> {
    if blocks == [] then row else ExecAll(Last(blocks), ExecBlocks(Front(blocks), row))
  }

  /** The statement would change nothing. */
  predicate Absorbed(s: Statement, row: Option<Row>) {
    Exec(s, row) == row
  }

  /** All the statements one block issues carry its height. */
  ghost predicate AtHeight(ss: seq<Statement>, h: nat) {
    forall s :: s in ss && !s.Skip? ==> s.Height() == h
  }

  ghost predicate Ascending(blocks: seq<seq<Statement>>, heights: seq<nat>) {
    && |heights| == |blocks|
    && (forall i :: 0 <= i < |blocks| ==> AtHeight(blocks[i], heights[i]))
    && (forall i, j :: 0 <= i < j < |heights| ==> heights[i] < heights[j])
  }

  /** No statement removes a row or lowers its height. */
  lemma {:induction false} HeightsRise(ss: seq<Statement>, row: Option<Row>)
    requires row.Some?
    ensures ExecAll(ss, row).Some? && row.value.height <= ExecAll(ss, row).value.height
  {
    if ss != [] { HeightsRise(Front(ss), row); }
  }

  /** Once absorbed, a statement stays absorbed under statements of the same or later blocks. */
  lemma {:induction false} AbsorbedStays(s: Statement, ss: seq<Statement>, h: nat, row: Option<Row>)
    requires Absorbed(s, row) && AtHeight(ss, h) && (s.Skip? || s.Height() <= h)
    ensures Absorbed(s, ExecAll(ss, row))
  {
    if ss != [] {
      assert Last(ss) in ss && forall x :: x in Front(ss) ==> x in ss;
      AbsorbedStays(s, Front(ss), h, row);
    }
  }

  /** The first statement that changes the row, or an idle one. */
  function Winner(ss: seq<Statement>, row: Option<Row>): Statement {
    if ss == [] then Skip
    else
      var w := Winner(Front(ss), row);
      if Absorbed(w, row) then Last(ss) else w
  }

  /** Within a block the first statement to change a row is the only one: its height then shuts
      out the others. */
  lemma {:induction false} FirstWins(ss: seq<Statement>, h: nat, row: Option<Row>)
    requires AtHeight(ss, h)
    ensures ExecAll(ss, row) == Exec(Winner(ss, row), row)
    ensures Winner(ss, row).Skip? || Winner(ss, row) in ss
    ensures forall s :: s in ss ==> Absorbed(s, ExecAll(ss, row))
  {
    if ss != [] {
      assert Last(ss) in ss && forall s :: s in Front(ss) ==> s in ss;
      assert forall s :: s in ss ==> s in Front(ss) || s == Last(ss);
      FirstWins(Front(ss), h, row);
    }
  }

  lemma {:induction false} LeaderWins(ss: seq<Statement>, row: Option<Row>)
    requires ss != [] && !Absorbed(ss[0], row)
    ensures Winner(ss, row) == ss[0]
  {
    if |ss| == 1 {
      assert Winner(Front(ss), row) == Skip;
    } else {
      LeaderWins(Front(ss), row);
    }
  }

  /** The effective statements of a block agree on what becomes of the row. */
  ghost predicate Confluent(ss: seq<Statement>, row: Option<Row>) {
    forall a, b :: a in ss && b in ss && !Absorbed(a, row) && !Absorbed(b, row) ==> Exec(a, row) == Exec(b, row)
  }

  /** The order of a block's statements does not matter exactly when they agree: then any two
      schedules of the same statements end alike, however often a statement is repeated, and
      otherwise two of them can be put first in turn. */
  lemma SchedulesAgree(ss: seq<Statement>, other: seq<Statement>, h: nat, row: Option<Row>)
    requires AtHeight(ss, h) && Confluent(ss, row)
    requires forall s: Statement :: !s.Skip? ==> (s in ss <==> s in other)
    ensures ExecAll(ss, row) == ExecAll(other, row)
  {
    FirstWins(ss, h, row);
    FirstWins(other, h, row);
  }

  lemma SchedulesDisagree(a: Statement, b: Statement, rest: seq<Statement>, h: nat, row: Option<Row>)
    requires AtHeight([a, b] + rest, h)
    requires !Absorbed(a, row) && !Absorbed(b, row) && Exec(a, row) != Exec(b, row)
    ensures ExecAll([a, b] + rest, row) != ExecAll([b, a] + rest, row)
  {
    var one, two := [a, b] + rest, [b, a] + rest;
    assert AtHeight(two, h) by { assert forall s :: s in two ==> s in one; }
    LeaderWins(one, row);
    LeaderWins(two, row);
    FirstWins(one, h, row);
    FirstWins(two, h, row);
  }

  /** After blocks in ascending order, every statement any of them issued is absorbed. */
  lemma {:induction false} AllAbsorbed(blocks: seq<seq<Statement>>, heights: seq<nat>, row: Option<Row>, i: nat,
      s: Statement)
    requires Ascending(blocks, heights) && i < |blocks| && s in blocks[i]
    ensures Absorbed(s, ExecBlocks(blocks, row))
  {
    var before := ExecBlocks(Front(blocks), row);
    if i == |blocks| - 1 {
      FirstWins(Last(blocks), heights[i], before);
    } else {
      AllAbsorbed(Front(blocks), Front(heights), row, i, s);
      AbsorbedStays(s, Last(blocks), Last(heights), before);
    }
  }

  /** Replaying any of the blocks, in any order, any number of times, and with the statements of
      each in any order, leaves the row as it was. */
  lemma {:induction false} ReplayChangesNothing(blocks: seq<seq<Statement>>, heights: seq<nat>,
      replay: seq<seq<Statement>>, row: Option<Row>)
    requires Ascending(blocks, heights)
    requires forall b, s: Statement :: b in replay && s in b && !s.Skip? ==>
              exists i :: 0 <= i < |blocks| && s in blocks[i]
    ensures ExecBlocks(replay, ExecBlocks(blocks, row)) == ExecBlocks(blocks, row)
  {
    if replay != [] {
      assert Last(replay) in replay && forall b :: b in Front(replay) ==> b in replay;
      ReplayChangesNothing(blocks, heights, Front(replay), row);
      forall s | s in Last(replay) ensures Absorbed(s, ExecBlocks(blocks, row)) {
        if !s.Skip? {
          var i :| 0 <= i < |blocks| && s in blocks[i];
          AllAbsorbed(blocks, heights, row, i, s);
        }
      }
      NothingLeft(Last(replay), ExecBlocks(blocks, row));
    }
  }

  lemma {:induction false} NothingLeft(ss: seq<Statement>, row: Option<Row>)
    requires forall s :: s in ss ==> Absorbed(s, row)
    ensures ExecAll(ss, row) == row
  {
    if ss != [] {
      assert Last(ss) in ss && forall s :: s in Front(ss) ==> s in ss;
      NothingLeft(Front(ss), row);
    }
  }
}
