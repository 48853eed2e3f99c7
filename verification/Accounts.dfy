/** handle_accounts: a block is folded into a map, which is then written by two concurrent futures
    of height-guarded statements. */
module Accounts {
  import opened Types
  import opened GuardedRows

  datatype ExecutedReceipt = ExecutedReceipt(success: bool, receipt: Receipt)
  datatype Event = Event(receiver: AccountId, receipt: Hash, action: Action)
  datatype Block = Block(height: nat, outcomes: seq<ExecutedReceipt>)

  type Table = map<AccountId, Row>

  function Get<K(==), V>(m: map<K, V>, k: K): Option<V> {
    if k in m then Some(m[k]) else None
  }

  function ActionEvents(r: Receipt): seq<Event> {
    match r.kind
    case ActionReceipt(actions, _, _) =>
      seq(|actions|, i requires 0 <= i < |actions| => Event(r.receiver, r.id, actions[i]))
    case DataReceipt(_) => []
  }

  /** The actions of the successful action receipts, in execution order. */
  function EventsOf(outcomes: seq<ExecutedReceipt>): seq<Event> {
    if outcomes == [] then []
    else EventsOf(Front(outcomes)) + if Last(outcomes).success then ActionEvents(Last(outcomes).receipt) else []
  }

  /** An account id of 64 characters is an implicit account, created by the first transfer to it. */
  predicate Creates(e: Event) {
    e.action.CreateAccount? || (e.action.Transfer? && |e.receiver| == 64)
  }

  /** One event folded into the entry of account `id`. */
  function BatchStep(entry: Option<Row>, e: Event, id: AccountId, height: nat): Option<Row> {
    if e.receiver != id then entry
    else if Creates(e) then Some(Row(Some(e.receipt), None, height))
    else if e.action.DeleteAccount? then
      match entry
      case Some(r) => Some(r.(deleted := Some(e.receipt)))
      case None => Some(Row(None, Some(e.receipt), height))
    else entry
  }

  function Batch(events: seq<Event>, id: AccountId, height: nat): Option<Row> {
    if events == [] then None else BatchStep(Batch(Front(events), id, height), Last(events), id, height)
  }

  /** Implicit accounts that are not deleted by the block may only be recreated. */
  function UpdateOf(id: AccountId, row: Row): Statement {
    if |id| == 64 && row.deleted.None? then Revive(row) else Overwrite(row)
  }

  /** What the entry of an account issues to its row. */
  function RowStatements(entry: Option<Row>, id: AccountId): seq<Statement> {
    match entry
    case None => []
    case Some(r) =>
      if r.created.Some? then [Insert(r), UpdateOf(id, r)]
      else if r.deleted.Some? then [Delete(r.deleted.value, r.height)]
      else []
  }

  function BlockStatements(b: Block, id: AccountId): seq<Statement> {
    RowStatements(Batch(EventsOf(b.outcomes), id, b.height), id)
  }

  function RunStatements(blocks: seq<Block>, id: AccountId): seq<seq<Statement>> {
    seq(|blocks|, i requires 0 <= i < |blocks| => BlockStatements(blocks[i], id))
  }

  function HeightsOf(blocks: seq<Block>): seq<nat> {
    seq(|blocks|, i requires 0 <= i < |blocks| => blocks[i].height)
  }

  ghost predicate AscendingBlocks(blocks: seq<Block>) {
    forall i, j :: 0 <= i < j < |blocks| ==> blocks[i].height < blocks[j].height
  }

  /** The row of account `id` after a run of blocks. */
  function RunRow(blocks: seq<Block>, id: AccountId, row: Option<Row>): Option<Row> {
    ExecBlocks(RunStatements(blocks, id), row)
  }

  predicate Below(row: Option<Row>, h: nat) {
    row.None? || row.value.height < h
  }

  // ---- The action-by-action meaning ------------------------------------------------------------

  /** One action on the row of a named account; deleting a missing row does nothing. */
  function SequentialStep(row: Option<Row>, e: Event, id: AccountId, height: nat): Option<Row> {
    if e.receiver != id then row
    else if Creates(e) then Some(Row(Some(e.receipt), None, height))
    else if e.action.DeleteAccount? && row.Some? then Some(row.value.(deleted := Some(e.receipt), height := height))
    else row
  }

  function Sequential(events: seq<Event>, id: AccountId, height: nat, row: Option<Row>): Option<Row> {
    if events == [] then row
    else SequentialStep(Sequential(Front(events), id, height, row), Last(events), id, height)
  }

  function SequentialRun(blocks: seq<Block>, id: AccountId, row: Option<Row>): Option<Row> {
    if blocks == [] then row
    else Sequential(EventsOf(Last(blocks).outcomes), id, Last(blocks).height, SequentialRun(Front(blocks), id, row))
  }

  /** Whether an account exists, and what deleted it. */
  datatype Life = Absent | Live | Dead(receipt: Hash)

  function LifeOf(row: Option<Row>): Life {
    match row
    case None => Absent
    case Some(r) => if r.deleted.Some? then Dead(r.deleted.value) else Live
  }

  function LifeStep(life: Life, e: Event, id: AccountId): Life {
    if e.receiver != id then life
    else if Creates(e) then Live
    else if e.action.DeleteAccount? && !life.Absent? then Dead(e.receipt)
    else life
  }

  function LifeAfter(events: seq<Event>, id: AccountId, life: Life): Life {
    if events == [] then life else LifeStep(LifeAfter(Front(events), id, life), Last(events), id)
  }

  function LifeRun(blocks: seq<Block>, id: AccountId, life: Life): Life {
    if blocks == [] then life
    else LifeAfter(EventsOf(Last(blocks).outcomes), id, LifeRun(Front(blocks), id, life))
  }

  // ---- What counts, and what it does to a row --------------------------------------------------

  /** Action `i` of a successful action receipt among the outcomes. */
  ghost predicate IsEvent(outcomes: seq<ExecutedReceipt>, e: Event) {
    exists o, i :: o in outcomes && IsEventOf(o, i, e)
  }

  ghost predicate IsEventOf(o: ExecutedReceipt, i: int, e: Event) {
    && o.success && o.receipt.kind.ActionReceipt?
    && 0 <= i < |o.receipt.kind.actions|
    && e == Event(o.receipt.receiver, o.receipt.id, o.receipt.kind.actions[i])
  }

  /** Only successful action receipts count, with every action. */
  lemma {:induction false} EventsExactly(outcomes: seq<ExecutedReceipt>, e: Event)
    ensures e in EventsOf(outcomes) <==> IsEvent(outcomes, e)
  {
    if outcomes != [] {
      var front, o := Front(outcomes), Last(outcomes);
      EventsExactly(front, e);
      assert forall x :: x in outcomes <==> x in front || x == o;
      if o.success && o.receipt.kind.ActionReceipt? {
        var acts := ActionEvents(o.receipt);
        assert forall i :: 0 <= i < |acts| ==> IsEventOf(o, i, acts[i]);
        assert e in acts <==> exists i :: IsEventOf(o, i, e) by {
          if i :| IsEventOf(o, i, e) { assert acts[i] == e; }
        }
      }
    }
  }

  /** The events come in the order of the outcomes, and of the actions within a receipt. */
  lemma {:induction false} EventsInOrder(outcomes: seq<ExecutedReceipt>, n: nat, i: nat)
    requires n < |outcomes| && outcomes[n].success && outcomes[n].receipt.kind.ActionReceipt?
    requires i < |outcomes[n].receipt.kind.actions|
    ensures var p := |EventsOf(outcomes[..n])| + i;
            p < |EventsOf(outcomes)| && IsEventOf(outcomes[n], i, EventsOf(outcomes)[p])
  {
    if n < |outcomes| - 1 {
      assert Front(outcomes)[..n] == outcomes[..n];
      EventsInOrder(Front(outcomes), n, i);
    } else {
      assert outcomes[..n] == Front(outcomes);
      assert ActionEvents(outcomes[n].receipt)[i] == EventsOf(outcomes)[|EventsOf(outcomes[..n])| + i];
    }
  }

  /** Each outcome adds its actions once, or nothing. */
  lemma EventCount(outcomes: seq<ExecutedReceipt>, n: nat)
    requires n < |outcomes|
    ensures var o := outcomes[n];
            |EventsOf(outcomes[..n + 1])| == |EventsOf(outcomes[..n])|
              + if o.success && o.receipt.kind.ActionReceipt? then |o.receipt.kind.actions| else 0
  {
    assert Front(outcomes[..n + 1]) == outcomes[..n];
  }

  /** Failed outcomes leave every row of the table as it was. */
  lemma FailuresChangeNothing(b: Block, id: AccountId, row: Option<Row>)
    requires forall o :: o in b.outcomes ==> !o.success
    ensures EventsOf(b.outcomes) == []
    ensures ExecAll(BlockStatements(b, id), row) == row
  {
    if EventsOf(b.outcomes) != [] { EventsExactly(b.outcomes, EventsOf(b.outcomes)[0]); }
  }

  /** The event creates account `id`: a CreateAccount, or a transfer to an id of 64 characters. */
  predicate Makes(e: Event, id: AccountId) {
    e.receiver == id && (e.action == CreateAccount || (e.action == Transfer && |id| == 64))
  }

  predicate Removes(e: Event, id: AccountId) {
    e.receiver == id && e.action == DeleteAccount
  }

  predicate Concerns(e: Event, id: AccountId) {
    Makes(e, id) || Removes(e, id)
  }

  lemma {:induction false} NothingConcerns(events: seq<Event>, id: AccountId, height: nat, row: Option<Row>)
    requires forall e :: e in events ==> !Concerns(e, id)
    ensures Sequential(events, id, height, row) == row
    ensures LifeAfter(events, id, LifeOf(row)) == LifeOf(row)
  {
    if events != [] {
      assert Last(events) in events && forall e :: e in Front(events) ==> e in events;
      NothingConcerns(Front(events), id, height, row);
    }
  }

  /** The meaning of a block's actions, by the last one that concerns the account: a creation makes a
      new row; a deletion marks the row there was, if any. */
  lemma {:induction false} LastActionDecides(events: seq<Event>, id: AccountId, height: nat, row: Option<Row>, i: nat)
    requires i < |events| && Concerns(events[i], id) && forall j :: i < j < |events| ==> !Concerns(events[j], id)
    ensures Makes(events[i], id) ==>
              Sequential(events, id, height, row) == Some(Row(Some(events[i].receipt), None, height))
    ensures Removes(events[i], id) ==>
              Sequential(events, id, height, row) ==
              match Sequential(events[..i], id, height, row)
              case None => None
              case Some(before) => Some(Row(before.created, Some(events[i].receipt), height))
  {
    if i < |events| - 1 {
      var front := Front(events);
      assert front[..i] == events[..i] && !Concerns(events[|events| - 1], id);
      LastActionDecides(front, id, height, row, i);
    } else {
      assert events[..i] == Front(events);
    }
  }

  /** The same of existence alone. */
  lemma {:induction false} LastActionDecidesLife(events: seq<Event>, id: AccountId, life: Life, i: nat)
    requires i < |events| && Concerns(events[i], id) && forall j :: i < j < |events| ==> !Concerns(events[j], id)
    ensures Makes(events[i], id) ==> LifeAfter(events, id, life) == Live
    ensures Removes(events[i], id) ==>
              LifeAfter(events, id, life) ==
              if LifeAfter(events[..i], id, life) == Absent then Absent else Dead(events[i].receipt)
  {
    if i < |events| - 1 {
      var front := Front(events);
      assert front[..i] == events[..i] && !Concerns(events[|events| - 1], id);
      LastActionDecidesLife(front, id, life, i);
    } else {
      assert events[..i] == Front(events);
    }
  }

  /** A transfer alone: to a named account it changes nothing, to an absent implicit one it creates it. */
  lemma TransferAlone(e: Event, height: nat, row: Option<Row>)
    requires e.action == Transfer
    ensures |e.receiver| != 64 ==> ExecAll(RowStatements(Batch([e], e.receiver, height), e.receiver), row) == row
    ensures |e.receiver| == 64 && row.None? ==>
              ExecAll(RowStatements(Batch([e], e.receiver, height), e.receiver), row) ==
              Some(Row(Some(e.receipt), None, height))
  {
    assert Front([e]) == [];
    assert Batch([e], e.receiver, height) == BatchStep(Batch([], e.receiver, height), e, e.receiver, height);
    assert Written(Batch([e], e.receiver, height), e.receiver, row) ==
      ExecAll(RowStatements(Batch([e], e.receiver, height), e.receiver), row);
  }

  // ---- The batch refines it --------------------------------------------------------------------

  ghost predicate EntryAt(entry: Option<Row>, height: nat) {
    entry.Some? ==> entry.value.height == height && (entry.value.created.Some? || entry.value.deleted.Some?)
  }

  lemma {:induction false} BatchAtHeight(events: seq<Event>, id: AccountId, height: nat)
    ensures EntryAt(Batch(events, id, height), height)
    ensures AtHeight(RowStatements(Batch(events, id, height), id), height)
  {
    if events != [] { BatchAtHeight(Front(events), id, height); }
  }

  /** What an entry makes of a row: the closed form of its statements. */
  function Written(entry: Option<Row>, id: AccountId, row: Option<Row>): (r: Option<Row>)
    ensures r == ExecAll(RowStatements(entry, id), row)
  {
    match entry
    case None => row
    case Some(r) =>
      if r.created.Some? then
        ExecShort(Insert(r), UpdateOf(id, r), row);
        Exec(UpdateOf(id, r), Exec(Insert(r), row))
      else if r.deleted.Some? then
        ExecShort(Delete(r.deleted.value, r.height), Skip, row);
        Exec(Delete(r.deleted.value, r.height), row)
      else row
  }

  /** Folding one more action into the entry acts on the written row as the action itself. */
  lemma StepRefines(entry: Option<Row>, e: Event, id: AccountId, height: nat, row: Option<Row>)
    requires EntryAt(entry, height) && Below(row, height)
    ensures |id| != 64 ==>
              Written(BatchStep(entry, e, id, height), id, row) ==
                  SequentialStep(Written(entry, id, row), e, id, height)
  {
  }

  lemma StepLife(entry: Option<Row>, e: Event, id: AccountId, height: nat, row: Option<Row>)
    requires EntryAt(entry, height) && Below(row, height)
    ensures LifeOf(Written(BatchStep(entry, e, id, height), id, row)) ==
              LifeStep(LifeOf(Written(entry, id, row)), e, id)
  {
  }

  /** One block: writing the folded map is acting action by action. For a named account the whole
      row agrees; for any account, its liveness and the receipt that deleted it. */
  lemma {:induction false} BlockRefines(events: seq<Event>, id: AccountId, height: nat, row: Option<Row>)
    requires Below(row, height)
    ensures |id| != 64 ==>
              ExecAll(RowStatements(Batch(events, id, height), id), row) == Sequential(events, id, height, row)
    ensures LifeOf(ExecAll(RowStatements(Batch(events, id, height), id), row)) == LifeAfter(events, id, LifeOf(row))
  {
    assert ExecAll(RowStatements(Batch(events, id, height), id), row) == Written(Batch(events, id, height), id, row);
    if events != [] {
      var entry := Batch(Front(events), id, height);
      BlockRefines(Front(events), id, height, row);
      BatchAtHeight(Front(events), id, height);
      assert ExecAll(RowStatements(entry, id), row) == Written(entry, id, row);
      StepRefines(entry, Last(events), id, height, row);
      StepLife(entry, Last(events), id, height, row);
    }
  }

  /** The entry of an account that the block creates is the row its actions alone would make. */
  lemma {:induction false} EntryAlone(events: seq<Event>, id: AccountId, height: nat)
    ensures var alone := Sequential(events, id, height, None);
            if alone.Some? then Batch(events, id, height) == alone
            else Batch(events, id, height).Some? ==> Batch(events, id, height).value.created.None?
  {
    if events != [] {
      BatchAtHeight(Front(events), id, height);
      EntryAlone(Front(events), id, height);
    }
  }

  /** The whole row of an implicit account after a block that pays into it: the entry, unless the row is
      alive and the block leaves the account alive, and then the row as it was. */
  lemma ImplicitRow(entry: Row, id: AccountId, row: Option<Row>)
    requires |id| == 64 && entry.created.Some? && Below(row, entry.height)
    ensures ExecAll(RowStatements(Some(entry), id), row) ==
            if row.Some? && row.value.deleted.None? && entry.deleted.None? then row else Some(entry)
  {
    assert Written(Some(entry), id, row) == ExecAll(RowStatements(Some(entry), id), row);
  }

  lemma WrittenBelow(events: seq<Event>, id: AccountId, height: nat, row: Option<Row>, next: nat)
    requires Below(row, height) && height < next
    ensures Below(ExecAll(RowStatements(Batch(events, id, height), id), row), next)
  {
    BatchAtHeight(events, id, height);
    assert ExecAll(RowStatements(Batch(events, id, height), id), row) == Written(Batch(events, id, height), id, row);
  }

  /** Over every run of ascending blocks the table is the action-by-action fold of the chain. */
  lemma {:induction false} RunRefines(blocks: seq<Block>, id: AccountId, row: Option<Row>, next: nat)
    requires AscendingBlocks(blocks) && (blocks == [] || Last(blocks).height < next)
    requires Below(row, if blocks == [] then next else blocks[0].height)
    ensures |id| != 64 ==> RunRow(blocks, id, row) == SequentialRun(blocks, id, row)
    ensures LifeOf(RunRow(blocks, id, row)) == LifeRun(blocks, id, LifeOf(row))
    ensures Below(RunRow(blocks, id, row), next)
  {
    if blocks != [] {
      var b := Last(blocks);
      var front := Front(blocks);
      assert Front(RunStatements(blocks, id)) == RunStatements(front, id);
      RunRefines(front, id, row, b.height);
      BlockRefines(EventsOf(b.outcomes), id, b.height, RunRow(front, id, row));
      WrittenBelow(EventsOf(b.outcomes), id, b.height, RunRow(front, id, row), next);
    }
  }

  /** Transfers to an implicit account that is alive leave its row as it was. */
  lemma {:induction false} TransfersKeepLiveRow(events: seq<Event>, id: AccountId, height: nat, row: Row)
    requires |id| == 64 && row.deleted.None? && row.height < height
    requires forall e :: e in events && e.receiver == id ==> e.action.Transfer?
    ensures ExecAll(RowStatements(Batch(events, id, height), id), Some(row)) == Some(row)
    ensures Batch(events, id, height).Some? ==>
              Batch(events, id, height).value.deleted.None? && Batch(events, id, height).value.created.Some?
  {
    assert ExecAll(RowStatements(Batch(events, id, height), id), Some(row)) ==
        Written(Batch(events, id, height), id, Some(row));
    if events != [] {
      assert Last(events) in events && forall e :: e in Front(events) ==> e in events;
      TransfersKeepLiveRow(Front(events), id, height, row);
    }
  }

  /** The creator of a live implicit account is kept by a block exactly unless the block both pays
      into the account and leaves it deleted, in which case the last payment is recorded instead. */
  lemma CreatorKept(events: seq<Event>, id: AccountId, height: nat, row: Row)
    requires |id| == 64 && row.deleted.None? && row.height < height
    ensures var after := ExecAll(RowStatements(Batch(events, id, height), id), Some(row));
            var entry := Batch(events, id, height);
            && after.Some?
            && (after.value.created == row.created <==>
                !(entry.Some? && entry.value.created.Some? && entry.value.deleted.Some?
                    && entry.value.created != row.created))
  {
    BatchAtHeight(events, id, height);
    assert ExecAll(RowStatements(Batch(events, id, height), id), Some(row)) ==
        Written(Batch(events, id, height), id, Some(row));
  }

  /** Re-indexing blocks of an ascending run, in any order, any number of times and under any
      schedule of their statements, changes no row. */
  lemma ReplayAbsorbed(blocks: seq<Block>, replay: seq<Block>, schedules: seq<seq<Statement>>, id: AccountId,
      row: Option<Row>)
    requires AscendingBlocks(blocks) && forall b :: b in replay ==> b in blocks
    requires |schedules| == |replay|
    requires forall i, s :: 0 <= i < |replay| && s in schedules[i] ==> s in BlockStatements(replay[i], id)
    ensures ExecBlocks(schedules, RunRow(blocks, id, row)) == RunRow(blocks, id, row)
  {
    RunAscends(blocks, id);
    forall b, s | b in schedules && s in b ensures exists i :: 0 <= i < |blocks| && s in RunStatements(blocks, id)[i] {
      var k :| 0 <= k < |schedules| && schedules[k] == b;
      assert replay[k] in replay;
      var i :| 0 <= i < |blocks| && blocks[i] == replay[k];
      assert s in RunStatements(blocks, id)[i];
    }
    ReplayChangesNothing(RunStatements(blocks, id), HeightsOf(blocks), schedules, row);
  }

  lemma RunAscends(blocks: seq<Block>, id: AccountId)
    requires AscendingBlocks(blocks)
    ensures Ascending(RunStatements(blocks, id), HeightsOf(blocks))
  {
    forall i | 0 <= i < |blocks| ensures AtHeight(RunStatements(blocks, id)[i], blocks[i].height) {
      BatchAtHeight(EventsOf(blocks[i].outcomes), id, blocks[i].height);
    }
  }

  // ---- The program -----------------------------------------------------------------------------

  datatype Sql =
    | InsertAll(rows: Table)
    | DeleteRow(account: AccountId, row: Row)
    | UpdateRow(account: AccountId, row: Row)

  /** What a statement on the table does to the row of `id`. */
  function At(q: Sql, id: AccountId): Statement {
    match q
    case InsertAll(rows) => if id in rows then Insert(rows[id]) else Skip
    case DeleteRow(account, row) =>
      if account == id && row.deleted.Some? then Delete(row.deleted.value, row.height) else Skip
    case UpdateRow(account, row) => if account == id then UpdateOf(id, row) else Skip
  }

  function AllAt(qs: seq<Sql>, id: AccountId): seq<Statement> {
    seq(|qs|, i requires 0 <= i < |qs| => At(qs[i], id))
  }

  /** The arms of the folding loop. */
  method FoldEvent(accounts: Table, e: Event, height: nat) returns (next: Table)
    ensures forall id :: Get(next, id) == BatchStep(Get(accounts, id), e, id, height)
  {
    next := accounts;
    match e.action
    case CreateAccount => next := accounts[e.receiver := Row(Some(e.receipt), None, height)];
    case Transfer =>
      if |e.receiver| == 64 { next := accounts[e.receiver := Row(Some(e.receipt), None, height)]; }
    case DeleteAccount =>
      var row := if e.receiver in accounts then accounts[e.receiver] else Row(None, None, height);
      next := accounts[e.receiver := row.(deleted := Some(e.receipt))];
    case _ =>
  }

  /** The folding loop over successful receipts and their actions. */
  method CollectAccounts(outcomes: seq<ExecutedReceipt>, height: nat) returns (accounts: Table)
    ensures forall id :: Get(accounts, id) == Batch(EventsOf(outcomes), id, height)
  {
    accounts := map[];
    for i := 0 to |outcomes|
      invariant forall id :: Get(accounts, id) == Batch(EventsOf(outcomes[..i]), id, height)
    {
      ghost var events := EventsOf(outcomes[..i]);
      var r := outcomes[i].receipt;
      assert Front(outcomes[..i + 1]) == outcomes[..i];
      ghost var after := EventsOf(outcomes[..i + 1]);
      assert after == events + if outcomes[i].success then ActionEvents(r) else [];
      assert events + [] == events;
      if outcomes[i].success && r.kind.ActionReceipt? {
        assert events + ActionEvents(r)[..0] == events;
        for j := 0 to |r.kind.actions|
          invariant forall id :: Get(accounts, id) == Batch(events + ActionEvents(r)[..j], id, height)
        {
          assert Front(events + ActionEvents(r)[..j + 1]) == events + ActionEvents(r)[..j];
          accounts := FoldEvent(accounts, Event(r.receiver, r.id, r.kind.actions[j]), height);
        }
        assert events + ActionEvents(r)[..|r.kind.actions|] == after;
      }
    }
    assert outcomes[..|outcomes|] == outcomes;
  }

  /** A HashMap is iterated in any order. */
  method AnyOrder<K>(keys: set<K>) returns (order: seq<K>)
    ensures forall k :: k in order <==> k in keys
  {
    order := [];
    var rest := keys;
    while rest != {}
      invariant forall k :: k in keys <==> k in order || k in rest
      decreases |rest|
    {
      var k :| k in rest;
      order := order + [k];
      rest := rest - {k};
    }
  }

  function Created(accounts: Table): Table {
    map id | id in accounts && accounts[id].created.Some? :: accounts[id]
  }

  /** The first future. */
  function DeletesOf(accounts: Table, order: seq<AccountId>): seq<Sql> {
    FlatMap(order, (id: AccountId) =>
      if id in accounts && accounts[id].created.None? then [DeleteRow(id, accounts[id])] else [])
  }

  /** The updates of the implicit accounts to recreate, or of the other created accounts. */
  function UpdatesOf(accounts: Table, order: seq<AccountId>, implicit: bool): seq<Sql> {
    FlatMap(order, (id: AccountId) =>
      if id in accounts && accounts[id].created.Some? && implicit == UpdateOf(id, accounts[id]).Revive?
      then [UpdateRow(id, accounts[id])] else [])
  }

  /** The second future. */
  function CreatesOf(accounts: Table, order: seq<AccountId>): seq<Sql> {
    [InsertAll(Created(accounts))] + UpdatesOf(accounts, order, true) + UpdatesOf(accounts, order, false)
  }

  /** What the two futures issue between them. */
  ghost predicate Issued(q: Sql, accounts: Table) {
    match q
    case InsertAll(rows) => rows == Created(accounts)
    case DeleteRow(id, row) => id in accounts && row == accounts[id] && row.created.None?
    case UpdateRow(id, row) => id in accounts && row == accounts[id] && row.created.Some?
  }

  lemma UpdatesHold(accounts: Table, order: seq<AccountId>, implicit: bool, q: Sql)
    requires forall id :: id in order <==> id in accounts
    ensures q in UpdatesOf(accounts, order, implicit) <==>
            q.UpdateRow? && Issued(q, accounts) && implicit == UpdateOf(q.account, q.row).Revive?
  {
    FlatMapHolds(order, (id: AccountId) =>
      if id in accounts && accounts[id].created.Some? && implicit == UpdateOf(id, accounts[id]).Revive?
      then [UpdateRow(id, accounts[id])] else [], q);
  }

  lemma FuturesIssue(accounts: Table, order: seq<AccountId>, q: Sql)
    requires forall id :: id in order <==> id in accounts
    ensures q in DeletesOf(accounts, order) || q in CreatesOf(accounts, order) <==> Issued(q, accounts)
  {
    FlatMapHolds(order, (id: AccountId) =>
      if id in accounts && accounts[id].created.None? then [DeleteRow(id, accounts[id])] else [], q);
    UpdatesHold(accounts, order, true, q);
    UpdatesHold(accounts, order, false, q);
  }

  /** The statements of one entry never compete for a row. */
  lemma EntryConfluent(entry: Option<Row>, id: AccountId, row: Option<Row>)
    ensures Confluent(RowStatements(entry, id), row)
  {
  }

  /** Every iteration order of the map and every interleaving of the two futures, even one that
      ignores the order within a future or repeats a statement, ends with the same row. */
  lemma AnySchedule(accounts: Table, done: seq<Sql>, events: seq<Event>, height: nat, id: AccountId, row: Option<Row>)
    requires Get(accounts, id) == Batch(events, id, height)
    requires forall q :: q in done <==> Issued(q, accounts)
    ensures ExecAll(AllAt(done, id), row) == ExecAll(RowStatements(Batch(events, id, height), id), row)
  {
    var ss := AllAt(done, id);
    var entry := RowStatements(Batch(events, id, height), id);
    forall s: Statement | !s.Skip? ensures s in ss <==> s in entry {
      if s in ss {
        var i :| 0 <= i < |done| && At(done[i], id) == s;
        assert done[i] in done;
      }
      if s in entry {
        var q :=
          if s.Insert? then InsertAll(Created(accounts))
          else if s.Delete? then DeleteRow(id, accounts[id])
          else UpdateRow(id, accounts[id]);
        assert Issued(q, accounts) && At(q, id) == s;
        var i :| 0 <= i < |done| && done[i] == q;
        assert ss[i] == s;
      }
    }
    BatchAtHeight(events, id, height);
    EntryConfluent(Batch(events, id, height), id, row);
    SchedulesAgree(entry, ss, height, row);
  }

  class AccountsTable {
    var rows: Table

    method Execute(q: Sql)
      modifies this
      ensures forall id :: Get(rows, id) == Exec(At(q, id), Get(old(rows), id))
    {
      match q
      case InsertAll(new_) =>
        rows := rows + map id | id in new_ && id !in rows :: new_[id];
      case DeleteRow(id, row) =>
        if id in rows && row.deleted.Some? && rows[id].height < row.height {
          rows := rows[id := rows[id].(deleted := row.deleted, height := row.height)];
        }
      case UpdateRow(id, row) =>
        if |id| == 64 && row.deleted.None? {
          if id in rows && rows[id].deleted.Some? && rows[id].height < row.height { rows := rows[id := row]; }
        } else if id in rows && rows[id].height < row.height {
          rows := rows[id := row];
        }
    }

    /** try_join: the statements of both futures, each in its order, interleaved at will. */
    method Join(deletes: seq<Sql>, creates: seq<Sql>) returns (ghost done: seq<Sql>)
      modifies this
      ensures forall q :: q in done <==> q in deletes || q in creates
      ensures forall id :: Get(rows, id) == ExecAll(AllAt(done, id), Get(old(rows), id))
    {
      var i, j := 0, 0;
      done := [];
      while
        invariant 0 <= i <= |deletes| && 0 <= j <= |creates|
        invariant forall q :: q in done <==> q in deletes[..i] || q in creates[..j]
        invariant forall id :: Get(rows, id) == ExecAll(AllAt(done, id), Get(old(rows), id))
        decreases |deletes| - i + |creates| - j
      {
        case i < |deletes| =>
          RunOneMore(done, deletes[i], old(rows));
          Execute(deletes[i]);
          done := done + [deletes[i]];
          i := i + 1;
        case j < |creates| =>
          RunOneMore(done, creates[j], old(rows));
          Execute(creates[j]);
          done := done + [creates[j]];
          j := j + 1;
      }
      assert deletes[..i] == deletes && creates[..j] == creates;
    }

    method HandleAccounts(outcomes: seq<ExecutedReceipt>, height: nat)
      modifies this
      ensures forall id :: Get(rows, id) == ExecAll(BlockStatements(Block(height, outcomes), id), Get(old(rows), id))
    {
      if outcomes == [] { return; }
      var accounts := CollectAccounts(outcomes, height);
      var order := AnyOrder(accounts.Keys);
      ghost var done := Join(DeletesOf(accounts, order), CreatesOf(accounts, order));
      forall q ensures q in done <==> Issued(q, accounts) { FuturesIssue(accounts, order, q); }
      forall id ensures Get(rows, id) == ExecAll(BlockStatements(Block(height, outcomes), id), Get(old(rows), id)) {
        AnySchedule(accounts, done, EventsOf(outcomes), height, id, Get(old(rows), id));
      }
    }
  }

  /** A run is its blocks, one after another. */
  method HandleBlocks(table: AccountsTable, blocks: seq<Block>)
    modifies table
    ensures forall id :: Get(table.rows, id) == RunRow(blocks, id, Get(old(table.rows), id))
  {
    for n := 0 to |blocks|
      invariant forall id :: Get(table.rows, id) == RunRow(blocks[..n], id, Get(old(table.rows), id))
    {
      table.HandleAccounts(blocks[n].outcomes, blocks[n].height);
      forall id, row: Option<Row>
        ensures RunRow(blocks[..n + 1], id, row) ==
                  ExecAll(BlockStatements(blocks[n], id), RunRow(blocks[..n], id, row))
      {
        assert Front(RunStatements(blocks[..n + 1], id)) == RunStatements(blocks[..n], id);
      }
    }
    assert blocks[..|blocks|] == blocks;
  }

  lemma RunOneMore(done: seq<Sql>, q: Sql, rows: Table)
    ensures forall id :: ExecAll(AllAt(done + [q], id), Get(rows, id)) ==
              Exec(At(q, id), ExecAll(AllAt(done, id), Get(rows, id)))
  {
    forall id
      ensures ExecAll(AllAt(done + [q], id), Get(rows, id)) == Exec(At(q, id), ExecAll(AllAt(done, id), Get(rows, id)))
    {
      assert Front(AllAt(done + [q], id)) == AllAt(done, id);
    }
  }
}
