/** handle_access_keys: a block is folded into a map of keys and a map of deleted accounts, which
    three concurrent futures then write. Their height guards make them race on a key whose account
    is deleted in the same block; the exact extent of the race is stated here. */
module AccessKeys {
  import opened Types
  import opened GuardedRows
  import opened Accounts

  datatype KeyId = KeyId(publicKey: PublicKey, account: AccountId)

  /** The public key an implicit account id spells, if it spells one. */
  type ImplicitKey = AccountId -> Option<PublicKey>

  predicate Adds(e: Event, k: KeyId, implicitKey: ImplicitKey) {
    match e.action
    case AddKey(pk) => pk == k.publicKey
    case Transfer => |e.receiver| == 64 && implicitKey(e.receiver) == Some(k.publicKey)
    case _ => false
  }

  /** One event folded into the entry of key `k`. */
  function KeyStep(entry: Option<Row>, e: Event, k: KeyId, height: nat, implicitKey: ImplicitKey): Option<Row> {
    if e.receiver != k.account then entry
    else if Adds(e, k, implicitKey) then Some(Row(Some(e.receipt), None, height))
    else if e.action.DeleteAccount? && entry.Some? then Some(entry.value.(deleted := Some(e.receipt)))
    else if e.action == DeleteKey(k.publicKey) then
      if entry.Some? then Some(entry.value.(deleted := Some(e.receipt))) else Some(Row(None, Some(e.receipt), height))
    else entry
  }

  function KeyEntry(events: seq<Event>, k: KeyId, height: nat, implicitKey: ImplicitKey): Option<Row> {
    if events == [] then None
    else KeyStep(KeyEntry(Front(events), k, height, implicitKey), Last(events), k, height, implicitKey)
  }

  /** The receipt of the last deletion of the account in the block. */
  function DeletedBy(events: seq<Event>, account: AccountId): Option<Hash> {
    if events == [] then None
    else
      var e := Last(events);
      if e.receiver == account && e.action.DeleteAccount? then Some(e.receipt) else DeletedBy(Front(events), account)
  }

  function EntryStatements(entry: Option<Row>): seq<Statement> {
    match entry
    case None => []
    case Some(r) =>
      if r.created.Some? then [Insert(r), Overwrite(r)]
      else if r.deleted.Some? then [Delete(r.deleted.value, r.height)]
      else []
  }

  function KillStatements(dead: Option<Hash>, height: nat): seq<Statement> {
    if dead.Some? then [DeleteLive(dead.value, height)] else []
  }

  /** Everything a block issues to the row of a key. */
  function KeyStatements(dead: Option<Hash>, entry: Option<Row>, height: nat): seq<Statement> {
    KillStatements(dead, height) + EntryStatements(entry)
  }

  function BlockKeyStatements(b: Block, k: KeyId, implicitKey: ImplicitKey): seq<Statement> {
    var events := EventsOf(b.outcomes);
    KeyStatements(DeletedBy(events, k.account), KeyEntry(events, k, b.height, implicitKey), b.height)
  }

  /** `ss` is a schedule of a block at one row: its statements in any order, repeated or not. */
  ghost predicate Schedule(ss: seq<Statement>, statements: seq<Statement>) {
    forall s: Statement :: !s.Skip? ==> (s in ss <==> s in statements)
  }

  lemma {:induction false} KeyEntryAt(events: seq<Event>, k: KeyId, height: nat, implicitKey: ImplicitKey)
    ensures EntryAt(KeyEntry(events, k, height, implicitKey), height)
  {
    if events != [] { KeyEntryAt(Front(events), k, height, implicitKey); }
  }

  // ---- When the schedule matters ---------------------------------------------------------------

  /** The deletion of the account and the entry of the key do not compete for the row: the row is
      shut to both, or only one of them concerns it, or they would write the same. */
  predicate RaceFree(dead: Option<Hash>, entry: Option<Row>, height: nat, row: Option<Row>) {
    || row.None? || row.value.deleted.Some? || row.value.height >= height
    || dead.None? || entry.None?
    || (entry.value.deleted == dead && (entry.value.created.None? || entry.value.created == row.value.created))
  }

  /** Deleting the account first and deleting it last leave the same row exactly when it is
      race-free. */
  lemma FirstAndLastAgree(dead: Option<Hash>, entry: Option<Row>, height: nat, row: Option<Row>)
    requires EntryAt(entry, height)
    ensures RaceFree(dead, entry, height, row) <==>
            ExecAll(KillStatements(dead, height) + EntryStatements(entry), row) ==
            ExecAll(EntryStatements(entry) + KillStatements(dead, height), row)
  {
    var kill, upd := KillStatements(dead, height), EntryStatements(entry);
    ExecAllConcat(kill, upd, row);
    ExecAllConcat(upd, kill, row);
    EntryClosed(entry, row);
    EntryClosed(entry, ExecAll(kill, row));
    KillClosed(dead, height, row);
    KillClosed(dead, height, ExecAll(upd, row));
  }

  lemma AllSchedulesAgree(
    ss: seq<Statement>, other: seq<Statement>, dead: Option<Hash>, entry: Option<Row>, height: nat, row: Option<Row>)
    requires EntryAt(entry, height) && RaceFree(dead, entry, height, row)
    requires Schedule(ss, KeyStatements(dead, entry, height)) && Schedule(other, KeyStatements(dead, entry, height))
    ensures ExecAll(ss, row) == ExecAll(other, row)
  {
    ConfluentClosed(dead, entry, height, row);
    SchedulesAgree(KeyStatements(dead, entry, height), ss, height, row);
    SchedulesAgree(KeyStatements(dead, entry, height), other, height, row);
  }

  ghost predicate ScheduleFree(statements: seq<Statement>, row: Option<Row>) {
    forall ss, other :: Schedule(ss, statements) && Schedule(other, statements) ==>
        ExecAll(ss, row) == ExecAll(other, row)
  }

  /** All schedules of the three futures leave the same row exactly when the row is race-free. */
  lemma RaceFreeExactly(dead: Option<Hash>, entry: Option<Row>, height: nat, row: Option<Row>)
    requires EntryAt(entry, height)
    ensures RaceFree(dead, entry, height, row) <==> ScheduleFree(KeyStatements(dead, entry, height), row)
  {
    var statements := KeyStatements(dead, entry, height);
    if RaceFree(dead, entry, height, row) {
      forall ss, other | Schedule(ss, statements) && Schedule(other, statements)
        ensures ExecAll(ss, row) == ExecAll(other, row)
      {
        AllSchedulesAgree(ss, other, dead, entry, height, row);
      }
    } else {
      FirstAndLastAgree(dead, entry, height, row);
      assert Schedule(statements, statements);
      assert Schedule(EntryStatements(entry) + KillStatements(dead, height), statements);
    }
  }

  /** An account is deleted and created again, and its key added again. */
  function Recreation(account: AccountId, pk: PublicKey): seq<Event> {
    [Event(account, 1, DeleteAccount), Event(account, 2, CreateAccount), Event(account, 3, AddKey(pk))]
  }

  lemma RecreationMaps(account: AccountId, pk: PublicKey, height: nat, implicitKey: ImplicitKey)
    ensures DeletedBy(Recreation(account, pk), account) == Some(1)
    ensures KeyEntry(Recreation(account, pk), KeyId(pk, account), height, implicitKey) ==
            Some(Row(Some(3), None, height))
  {
    var k, events := KeyId(pk, account), Recreation(account, pk);
    var first, two := events[..1], events[..2];
    assert Front(events) == two && Front(two) == first && Front(first) == [];
    assert KeyEntry(first, k, height, implicitKey) == None;
    assert KeyEntry(two, k, height, implicitKey) == None;
    assert DeletedBy(first, account) == DeletedBy(two, account) == Some(1);
  }

  /** At height 7, on a key live since height 3, that races and is not safe: the key ends dead when the
      deletion comes first, and live when it comes last. */
  lemma RaceHappens(account: AccountId, pk: PublicKey, implicitKey: ImplicitKey)
    ensures var events, row := Recreation(account, pk), Some(Row(Some(0), None, 3));
            var dead, entry := DeletedBy(events, account), KeyEntry(events, KeyId(pk, account), 7, implicitKey);
            && !RaceFree(dead, entry, 7, row) && !Safe(KeyLifeOf(row), dead, entry)
            && KeyLifeOf(ExecAll(KillStatements(dead, 7) + EntryStatements(entry), row)) == DeadKey
            && KeyLifeOf(ExecAll(EntryStatements(entry) + KillStatements(dead, 7), row)) == LiveKey
  {
    RecreationMaps(account, pk, 7, implicitKey);
    var dead, entry, row := Some(1), Some(Row(Some(3), None, 7)), Some(Row(Some(0), None, 3));
    var kill, upd := KillStatements(dead, 7), EntryStatements(entry);
    ExecAllConcat(kill, upd, row);
    ExecAllConcat(upd, kill, row);
    EntryClosed(entry, row);
    EntryClosed(entry, ExecAll(kill, row));
    KillClosed(dead, 7, row);
    KillClosed(dead, 7, ExecAll(upd, row));
  }

  // ---- Blocks that delete an account at the end ------------------------------------------------

  /** The last event of the account. */
  function LastOf(events: seq<Event>, account: AccountId): Option<Event> {
    if events == [] then None
    else if Last(events).receiver == account then Some(Last(events))
    else LastOf(Front(events), account)
  }

  /** If the block deletes the account of the key, that is the account's last event, and the block
      does not add the key. */
  predicate DeletesLast(events: seq<Event>, k: KeyId, implicitKey: ImplicitKey) {
    DeletedBy(events, k.account).Some? ==>
      && LastOf(events, k.account).Some? && LastOf(events, k.account).value.action.DeleteAccount?
      && forall e :: e in events && e.receiver == k.account ==> !Adds(e, k, implicitKey)
  }

  lemma {:induction false} DeletedLast(events: seq<Event>, k: KeyId, height: nat, implicitKey: ImplicitKey)
    requires LastOf(events, k.account).Some? && LastOf(events, k.account).value.action.DeleteAccount?
    ensures DeletedBy(events, k.account) == Some(LastOf(events, k.account).value.receipt)
    ensures KeyEntry(events, k, height, implicitKey).Some? ==>
              KeyEntry(events, k, height, implicitKey).value.deleted == DeletedBy(events, k.account)
  {
    if Last(events).receiver != k.account { DeletedLast(Front(events), k, height, implicitKey); }
  }

  lemma {:induction false} NeverAdded(events: seq<Event>, k: KeyId, height: nat, implicitKey: ImplicitKey)
    requires forall e :: e in events && e.receiver == k.account ==> !Adds(e, k, implicitKey)
    ensures KeyEntry(events, k, height, implicitKey).Some? ==>
              KeyEntry(events, k, height, implicitKey).value.created.None?
  {
    if events != [] {
      assert Last(events) in events && forall e :: e in Front(events) ==> e in events;
      NeverAdded(Front(events), k, height, implicitKey);
    }
  }

  /** Such a block is race-free and safe for the key, whatever its row. */
  lemma DeletesLastIsFree(
    events: seq<Event>, k: KeyId, height: nat, implicitKey: ImplicitKey, row: Option<Row>, life: KeyLife)
    requires DeletesLast(events, k, implicitKey)
    ensures var dead, entry := DeletedBy(events, k.account), KeyEntry(events, k, height, implicitKey);
            RaceFree(dead, entry, height, row) && Safe(life, dead, entry)
  {
    if DeletedBy(events, k.account).Some? {
      DeletedLast(events, k, height, implicitKey);
      NeverAdded(events, k, height, implicitKey);
    }
  }

  lemma ConfluentClosed(dead: Option<Hash>, entry: Option<Row>, height: nat, row: Option<Row>)
    requires EntryAt(entry, height)
    ensures RaceFree(dead, entry, height, row) <==> Confluent(KeyStatements(dead, entry, height), row)
  {
    var ss := KeyStatements(dead, entry, height);
    if !RaceFree(dead, entry, height, row) {
      var kill := DeleteLive(dead.value, height);
      var upd :=
        if entry.value.created.Some? then Overwrite(entry.value)
        else Delete(entry.value.deleted.value, height);
      assert ss[0] == kill && kill in ss;
      assert Last(ss) == upd && upd in ss;
    }
  }

  lemma EntryClosed(entry: Option<Row>, row: Option<Row>)
    ensures ExecAll(EntryStatements(entry), row) ==
            match entry
            case None => row
            case Some(r) =>
              if r.created.Some? then Exec(Overwrite(r), Exec(Insert(r), row))
              else if r.deleted.Some? then Exec(Delete(r.deleted.value, r.height), row)
              else row
  {
    match entry
    case None =>
    case Some(r) =>
      ExecShort(Insert(r), Overwrite(r), row);
      if r.deleted.Some? { ExecShort(Delete(r.deleted.value, r.height), Skip, row); }
  }

  lemma KillClosed(dead: Option<Hash>, height: nat, row: Option<Row>)
    ensures ExecAll(KillStatements(dead, height), row) ==
            if dead.Some? then Exec(DeleteLive(dead.value, height), row) else row
  {
    if dead.Some? { ExecShort(DeleteLive(dead.value, height), Skip, row); }
  }

  // ---- Liveness --------------------------------------------------------------------------------

  datatype KeyLife = NoKey | LiveKey | DeadKey

  function KeyLifeOf(row: Option<Row>): KeyLife {
    if row.None? then NoKey else if row.value.deleted.Some? then DeadKey else LiveKey
  }

  /** One action on a key of a named account: deleting a missing key does nothing, deleting the
      account deletes its keys. */
  function KeyLifeStep(life: KeyLife, e: Event, k: KeyId): KeyLife {
    if e.receiver != k.account then life
    else if e.action == AddKey(k.publicKey) then LiveKey
    else if (e.action == DeleteKey(k.publicKey) || e.action.DeleteAccount?) && life.LiveKey? then DeadKey
    else life
  }

  function KeyLifeAfter(events: seq<Event>, k: KeyId, life: KeyLife): KeyLife {
    if events == [] then life else KeyLifeStep(KeyLifeAfter(Front(events), k, life), Last(events), k)
  }

  function KeyLifeRun(blocks: seq<Block>, k: KeyId, life: KeyLife): KeyLife {
    if blocks == [] then life
    else KeyLifeAfter(EventsOf(Last(blocks).outcomes), k, KeyLifeRun(Front(blocks), k, life))
  }

  /** The block does not both delete the account of a live key and end by adding that key again. */
  predicate Safe(life: KeyLife, dead: Option<Hash>, entry: Option<Row>) {
    !(life.LiveKey? && dead.Some? && entry.Some? && entry.value.created.Some? && entry.value.deleted.None?)
  }

  /** What an entry and a deletion of the account make of a key, in the order of the actions. */
  ghost function LifeFrom(dead: Option<Hash>, entry: Option<Row>, life: KeyLife): KeyLife {
    if entry.Some? && entry.value.created.Some? then if entry.value.deleted.None? then LiveKey else DeadKey
    else if life.LiveKey? && (entry.Some? || dead.Some?) then DeadKey
    else life
  }

  /** The two maps of the fold determine what the actions make of a key. */
  lemma {:induction false} LifeFromMaps(events: seq<Event>, k: KeyId, height: nat, implicitKey: ImplicitKey,
      life: KeyLife)
    requires |k.account| != 64
    ensures KeyLifeAfter(events, k, life) ==
            LifeFrom(DeletedBy(events, k.account), KeyEntry(events, k, height, implicitKey), life)
  {
    if events != [] {
      LifeFromMaps(Front(events), k, height, implicitKey, life);
      KeyEntryAt(Front(events), k, height, implicitKey);
    }
  }

  /** One block, key of a named account: under every schedule the key is live exactly when the
      actions leave it live, if the block is safe for it ... */
  lemma BlockKeyLife(ss: seq<Statement>, events: seq<Event>, k: KeyId, height: nat, implicitKey: ImplicitKey,
      row: Option<Row>)
    requires |k.account| != 64 && Below(row, height)
    requires Schedule(ss, KeyStatements(DeletedBy(events, k.account), KeyEntry(events, k, height, implicitKey), height))
    requires Safe(KeyLifeOf(row), DeletedBy(events, k.account), KeyEntry(events, k, height, implicitKey))
    ensures KeyLifeOf(ExecAll(ss, row)) == KeyLifeAfter(events, k, KeyLifeOf(row))
  {
    var dead, entry := DeletedBy(events, k.account), KeyEntry(events, k, height, implicitKey);
    KeyEntryAt(events, k, height, implicitKey);
    LifeFromMaps(events, k, height, implicitKey, KeyLifeOf(row));
    EffectiveLife(dead, entry, height, row);
    FirstWins(ss, height, row);
    var w := Winner(ss, row);
    if Absorbed(w, row) {
      assert forall s :: s in KeyStatements(dead, entry, height) ==> s in ss && Absorbed(s, row);
    } else {
      assert w in KeyStatements(dead, entry, height);
    }
  }

  /** Whichever statement of a safe block takes effect on the row, it leaves the right liveness. */
  lemma EffectiveLife(dead: Option<Hash>, entry: Option<Row>, height: nat, row: Option<Row>)
    requires EntryAt(entry, height) && Below(row, height) && Safe(KeyLifeOf(row), dead, entry)
    ensures forall s :: s in KeyStatements(dead, entry, height) && !Absorbed(s, row) ==>
              KeyLifeOf(Exec(s, row)) == LifeFrom(dead, entry, KeyLifeOf(row))
    ensures (forall s :: s in KeyStatements(dead, entry, height) ==> Absorbed(s, row)) ==>
              KeyLifeOf(row) == LifeFrom(dead, entry, KeyLifeOf(row))
  {
    var ss := KeyStatements(dead, entry, height);
    if dead.Some? { assert ss[0] == DeleteLive(dead.value, height) && ss[0] in ss; }
    if entry.Some? {
      assert Last(ss) in ss;
      if entry.value.created.Some? { assert ss[|ss| - 2] == Insert(entry.value) && ss[|ss| - 2] in ss; }
    }
  }

  /** ... and only then: when it is not safe, deleting the account first shuts out the new key. */
  lemma SafeExactly(events: seq<Event>, k: KeyId, height: nat, implicitKey: ImplicitKey, row: Option<Row>)
    requires |k.account| != 64 && Below(row, height)
    ensures var dead, entry := DeletedBy(events, k.account), KeyEntry(events, k, height, implicitKey);
            Safe(KeyLifeOf(row), dead, entry) <==>
            KeyLifeOf(ExecAll(KeyStatements(dead, entry, height), row)) == KeyLifeAfter(events, k, KeyLifeOf(row))
  {
    var dead, entry := DeletedBy(events, k.account), KeyEntry(events, k, height, implicitKey);
    KeyEntryAt(events, k, height, implicitKey);
    LifeFromMaps(events, k, height, implicitKey, KeyLifeOf(row));
    ExecAllConcat(KillStatements(dead, height), EntryStatements(entry), row);
    KillClosed(dead, height, row);
    EntryClosed(entry, ExecAll(KillStatements(dead, height), row));
    if Safe(KeyLifeOf(row), dead, entry) {
      BlockKeyLife(KeyStatements(dead, entry, height), events, k, height, implicitKey, row);
    }
  }

  /** The schedules of a run at one key, each block under a schedule of its own. */
  ghost predicate Schedules(schedules: seq<seq<Statement>>, blocks: seq<Block>, k: KeyId, implicitKey: ImplicitKey) {
    && |schedules| == |blocks|
    && forall i :: 0 <= i < |blocks| ==> Schedule(schedules[i], BlockKeyStatements(blocks[i], k, implicitKey))
  }

  /** Every block of the run is safe for the key as the blocks before leave it. */
  ghost predicate SafeRun(blocks: seq<Block>, k: KeyId, implicitKey: ImplicitKey, life: KeyLife) {
    blocks != [] ==>
      var events := EventsOf(Last(blocks).outcomes);
      && SafeRun(Front(blocks), k, implicitKey, life)
      && Safe(KeyLifeRun(Front(blocks), k, life), DeletedBy(events, k.account),
          KeyEntry(events, k, Last(blocks).height, implicitKey))
  }

  /** Over every run of ascending blocks, under every schedule of each, the live keys of named
      accounts are those the actions leave live. */
  lemma {:induction false} RunKeyLife(schedules: seq<seq<Statement>>, blocks: seq<Block>, k: KeyId,
      implicitKey: ImplicitKey, row: Option<Row>, next: nat)
    requires |k.account| != 64
    requires AscendingBlocks(blocks) && (blocks == [] || Last(blocks).height < next)
    requires Below(row, if blocks == [] then next else blocks[0].height)
    requires Schedules(schedules, blocks, k, implicitKey) && SafeRun(blocks, k, implicitKey, KeyLifeOf(row))
    ensures KeyLifeOf(ExecBlocks(schedules, row)) == KeyLifeRun(blocks, k, KeyLifeOf(row))
    ensures Below(ExecBlocks(schedules, row), next)
  {
    if blocks != [] {
      var front, b := Front(blocks), Last(blocks);
      var events := EventsOf(b.outcomes);
      RunKeyLife(Front(schedules), front, k, implicitKey, row, b.height);
      var before := ExecBlocks(Front(schedules), row);
      BlockKeyLife(Last(schedules), events, k, b.height, implicitKey, before);
      ScheduleBelow(Last(schedules), events, k, b.height, implicitKey, before);
    }
  }

  /** Every block of the run is race-free for the key's row as the blocks before leave it. */
  ghost predicate RaceFreeRun(schedules: seq<seq<Statement>>, blocks: seq<Block>, k: KeyId, implicitKey: ImplicitKey,
      row: Option<Row>)
    requires |schedules| == |blocks|
  {
    blocks != [] ==>
      var events := EventsOf(Last(blocks).outcomes);
      && RaceFreeRun(Front(schedules), Front(blocks), k, implicitKey, row)
      && RaceFree(DeletedBy(events, k.account), KeyEntry(events, k, Last(blocks).height, implicitKey),
                  Last(blocks).height, ExecBlocks(Front(schedules), row))
  }

  /** Then every other run of the same blocks, under any schedules, ends with the same row. */
  lemma {:induction false} RunSchedulesAgree(
    schedules: seq<seq<Statement>>, other: seq<seq<Statement>>, blocks: seq<Block>, k: KeyId, implicitKey: ImplicitKey,
    row: Option<Row>)
    requires Schedules(schedules, blocks, k, implicitKey) && Schedules(other, blocks, k, implicitKey)
    requires RaceFreeRun(schedules, blocks, k, implicitKey, row)
    ensures ExecBlocks(schedules, row) == ExecBlocks(other, row)
  {
    if blocks != [] {
      var b := Last(blocks);
      var events := EventsOf(b.outcomes);
      RunSchedulesAgree(Front(schedules), Front(other), Front(blocks), k, implicitKey, row);
      KeyEntryAt(events, k, b.height, implicitKey);
      AllSchedulesAgree(Last(schedules), Last(other), DeletedBy(events, k.account),
                        KeyEntry(events, k, b.height, implicitKey), b.height, ExecBlocks(Front(schedules), row));
    }
  }

  /** Runs whose blocks delete accounts last are race-free and safe, whatever the schedules, so both
      theorems hold of them. */
  lemma {:induction false} DeletesLastRun(
    schedules: seq<seq<Statement>>, blocks: seq<Block>, k: KeyId, implicitKey: ImplicitKey, life: KeyLife,
    row: Option<Row>)
    requires |schedules| == |blocks|
    requires forall b :: b in blocks ==> DeletesLast(EventsOf(b.outcomes), k, implicitKey)
    ensures RaceFreeRun(schedules, blocks, k, implicitKey, row) && SafeRun(blocks, k, implicitKey, life)
  {
    if blocks != [] {
      var b := Last(blocks);
      assert b in blocks && forall x :: x in Front(blocks) ==> x in blocks;
      DeletesLastRun(Front(schedules), Front(blocks), k, implicitKey, life, row);
      DeletesLastIsFree(EventsOf(b.outcomes), k, b.height, implicitKey, ExecBlocks(Front(schedules), row),
                        KeyLifeRun(Front(blocks), k, life));
    }
  }

  lemma ScheduleBelow(ss: seq<Statement>, events: seq<Event>, k: KeyId, height: nat, implicitKey: ImplicitKey,
      row: Option<Row>)
    requires Schedule(ss, KeyStatements(DeletedBy(events, k.account), KeyEntry(events, k, height, implicitKey), height))
    requires Below(row, height)
    ensures AtHeight(ss, height) && Below(ExecAll(ss, row), height + 1)
  {
    KeyEntryAt(events, k, height, implicitKey);
    assert AtHeight(ss, height);
    FirstWins(ss, height, row);
  }

  /** Re-indexing blocks of an ascending run, in any order, any number of times and under any
      schedules, the first time or again, changes no key. */
  lemma KeyReplayAbsorbed(schedules: seq<seq<Statement>>, blocks: seq<Block>, again: seq<seq<Statement>>,
      replay: seq<Block>, k: KeyId, implicitKey: ImplicitKey, row: Option<Row>)
    requires AscendingBlocks(blocks) && Schedules(schedules, blocks, k, implicitKey)
    requires (forall b :: b in replay ==> b in blocks) && Schedules(again, replay, k, implicitKey)
    ensures ExecBlocks(again, ExecBlocks(schedules, row)) == ExecBlocks(schedules, row)
  {
    forall i | 0 <= i < |blocks| ensures AtHeight(schedules[i], blocks[i].height) {
      KeyEntryAt(EventsOf(blocks[i].outcomes), k, blocks[i].height, implicitKey);
    }
    assert Ascending(schedules, HeightsOf(blocks));
    forall b, s: Statement | b in again && s in b && !s.Skip?
      ensures exists i :: 0 <= i < |blocks| && s in schedules[i]
    {
      var j :| 0 <= j < |again| && again[j] == b;
      assert replay[j] in replay;
      var i :| 0 <= i < |blocks| && blocks[i] == replay[j];
      assert s in schedules[i];
    }
    ReplayChangesNothing(schedules, HeightsOf(blocks), again, row);
  }

  // ---- What the actions say, one by one --------------------------------------------------------

  /** Failed outcomes leave every key as it was, under every schedule. */
  lemma FailuresChangeNoKey(b: Block, k: KeyId, implicitKey: ImplicitKey, ss: seq<Statement>, row: Option<Row>)
    requires forall o :: o in b.outcomes ==> !o.success
    requires Schedule(ss, BlockKeyStatements(b, k, implicitKey))
    ensures ExecAll(ss, row) == row
  {
    FailuresChangeNothing(b, k.account, row);
    assert BlockKeyStatements(b, k, implicitKey) == [];
    forall s | s in ss ensures Absorbed(s, row) { assert s.Skip?; }
    NothingLeft(ss, row);
  }

  /** The deletion of an account that a block records is its last one. */
  lemma {:induction false} DeletedByExactly(events: seq<Event>, account: AccountId)
    ensures DeletedBy(events, account).None? ==> forall e :: e in events ==> !Removes(e, account)
    ensures DeletedBy(events, account).Some? ==>
              exists i :: 0 <= i < |events| && Removes(events[i], account)
                  && DeletedBy(events, account) == Some(events[i].receipt)
                  && forall j :: i < j < |events| ==> !Removes(events[j], account)
  {
    if events != [] {
      var front, e := Front(events), Last(events);
      DeletedByExactly(front, account);
      assert events == front + [e] && events[|front|] == e;
      if !Removes(e, account) && DeletedBy(front, account).Some? {
        var i :| 0 <= i < |front| && Removes(front[i], account) && DeletedBy(front, account) == Some(front[i].receipt)
                 && forall j :: i < j < |front| ==> !Removes(front[j], account);
        assert events[i] == front[i];
      }
    }
  }

  /** On a live key that the block does not otherwise concern, that deletion is recorded. */
  lemma DeletionRecorded(ss: seq<Statement>, receipt: Hash, height: nat, row: Row)
    requires row.deleted.None? && row.height < height && Schedule(ss, KeyStatements(Some(receipt), None, height))
    ensures ExecAll(ss, Some(row)) == Some(Row(row.created, Some(receipt), height))
  {
    AllSchedulesAgree(ss, KeyStatements(Some(receipt), None, height), Some(receipt), None, height, Some(row));
    assert KeyStatements(Some(receipt), None, height) == KillStatements(Some(receipt), height);
    KillClosed(Some(receipt), height, Some(row));
  }

  /** The liveness of a key of a named account, by the last action that concerns it. */
  lemma {:induction false} LastActionDecidesKey(events: seq<Event>, k: KeyId, life: KeyLife, i: nat)
    requires i < |events| && ConcernsKey(events[i], k) && forall j :: i < j < |events| ==> !ConcernsKey(events[j], k)
    ensures AddsNamed(events[i], k) ==> KeyLifeAfter(events, k, life) == LiveKey
    ensures !AddsNamed(events[i], k) ==>
              KeyLifeAfter(events, k, life) ==
              if KeyLifeAfter(events[..i], k, life) == NoKey then NoKey else DeadKey
  {
    if i < |events| - 1 {
      assert Front(events)[..i] == events[..i] && !ConcernsKey(events[|events| - 1], k);
      LastActionDecidesKey(Front(events), k, life, i);
    } else {
      assert events[..i] == Front(events);
    }
  }

  predicate AddsNamed(e: Event, k: KeyId) {
    e.receiver == k.account && e.action == AddKey(k.publicKey)
  }

  predicate DeletesNamed(e: Event, k: KeyId) {
    e.receiver == k.account && e.action == DeleteKey(k.publicKey)
  }

  predicate ConcernsKey(e: Event, k: KeyId) {
    AddsNamed(e, k) || DeletesNamed(e, k) || Removes(e, k.account)
  }

  /** One action on the row of a key whose account the block does not delete. */
  function KeyRowStep(row: Option<Row>, e: Event, k: KeyId, height: nat): Option<Row> {
    if AddsNamed(e, k) then Some(Row(Some(e.receipt), None, height))
    else if DeletesNamed(e, k) && row.Some? then Some(Row(row.value.created, Some(e.receipt), height))
    else row
  }

  function KeyRowAfter(events: seq<Event>, k: KeyId, height: nat, row: Option<Row>): Option<Row> {
    if events == [] then row else KeyRowStep(KeyRowAfter(Front(events), k, height, row), Last(events), k, height)
  }

  /** What the entry of a key alone makes of its row. */
  function EntryWritten(entry: Option<Row>, row: Option<Row>): Option<Row> {
    ExecAll(EntryStatements(entry), row)
  }

  lemma KeyStepRefines(entry: Option<Row>, e: Event, k: KeyId, height: nat, implicitKey: ImplicitKey, row: Option<Row>)
    requires |k.account| != 64 && EntryAt(entry, height) && Below(row, height) && !Removes(e, k.account)
    ensures EntryWritten(KeyStep(entry, e, k, height, implicitKey), row) ==
            KeyRowStep(EntryWritten(entry, row), e, k, height)
  {
    EntryClosed(entry, row);
    EntryClosed(KeyStep(entry, e, k, height, implicitKey), row);
  }

  lemma {:induction false} EntryRefines(events: seq<Event>, k: KeyId, height: nat, implicitKey: ImplicitKey,
      row: Option<Row>)
    requires |k.account| != 64 && Below(row, height) && forall e :: e in events ==> !Removes(e, k.account)
    ensures EntryWritten(KeyEntry(events, k, height, implicitKey), row) == KeyRowAfter(events, k, height, row)
  {
    if events != [] {
      assert Last(events) in events && forall e :: e in Front(events) ==> e in events;
      EntryRefines(Front(events), k, height, implicitKey, row);
      KeyEntryAt(Front(events), k, height, implicitKey);
      KeyStepRefines(KeyEntry(Front(events), k, height, implicitKey), Last(events), k, height, implicitKey, row);
    }
  }

  /** A block that does not delete a named account leaves each of its keys, receipts and all, as the
      actions one by one do, under every schedule. */
  lemma KeyBlockRefines(
    ss: seq<Statement>, events: seq<Event>, k: KeyId, height: nat, implicitKey: ImplicitKey, row: Option<Row>)
    requires |k.account| != 64 && Below(row, height) && forall e :: e in events ==> !Removes(e, k.account)
    requires Schedule(ss, KeyStatements(DeletedBy(events, k.account), KeyEntry(events, k, height, implicitKey), height))
    ensures ExecAll(ss, row) == KeyRowAfter(events, k, height, row)
  {
    var entry := KeyEntry(events, k, height, implicitKey);
    DeletedByExactly(events, k.account);
    assert DeletedBy(events, k.account).None?;
    KeyEntryAt(events, k, height, implicitKey);
    assert KeyStatements(None, entry, height) == EntryStatements(entry);
    AllSchedulesAgree(ss, EntryStatements(entry), None, entry, height, row);
    EntryRefines(events, k, height, implicitKey, row);
  }

  /** That meaning, by the last action that concerns the key. */
  lemma {:induction false} LastActionDecidesKeyRow(events: seq<Event>, k: KeyId, height: nat, row: Option<Row>, i: nat)
    requires i < |events| && (AddsNamed(events[i], k) || DeletesNamed(events[i], k))
    requires forall j :: i < j < |events| ==> !AddsNamed(events[j], k) && !DeletesNamed(events[j], k)
    ensures AddsNamed(events[i], k) ==>
              KeyRowAfter(events, k, height, row) == Some(Row(Some(events[i].receipt), None, height))
    ensures DeletesNamed(events[i], k) ==>
              KeyRowAfter(events, k, height, row) ==
              match KeyRowAfter(events[..i], k, height, row)
              case None => None
              case Some(before) => Some(Row(before.created, Some(events[i].receipt), height))
  {
    if i < |events| - 1 {
      var front, e := Front(events), events[|events| - 1];
      assert front[..i] == events[..i] && !AddsNamed(e, k) && !DeletesNamed(e, k);
      LastActionDecidesKeyRow(front, k, height, row, i);
    } else {
      assert events[..i] == Front(events);
    }
  }

  /** A transfer alone adds, to an implicit account, the key its id spells, and none to a named one. */
  lemma TransferAddsKey(e: Event, k: KeyId, height: nat, implicitKey: ImplicitKey)
    requires e.action == Transfer && e.receiver == k.account
    ensures KeyEntry([e], k, height, implicitKey) ==
            if |k.account| == 64 && implicitKey(k.account) == Some(k.publicKey)
            then Some(Row(Some(e.receipt), None, height)) else None
  {
    assert Front([e]) == [];
    assert KeyEntry([e], k, height, implicitKey) ==
      KeyStep(KeyEntry([], k, height, implicitKey), e, k, height, implicitKey);
  }

  // ---- The program -----------------------------------------------------------------------------

  type KeyTable = map<KeyId, Row>

  datatype KeySql =
    | InsertKeys(rows: KeyTable)
    | UpdateKey(key: KeyId, row: Row)                                // sets deletion and height
    | OverwriteKey(key: KeyId, row: Row)                             // sets creation, deletion and height
    | DeleteKeysOf(account: AccountId, receipt: Hash, height: nat)   // every live key of the account

  function KeyAt(q: KeySql, k: KeyId): Statement {
    match q
    case InsertKeys(rows) => if k in rows then Insert(rows[k]) else Skip
    case UpdateKey(key, row) => if key == k && row.deleted.Some? then Delete(row.deleted.value, row.height) else Skip
    case OverwriteKey(key, row) => if key == k then Overwrite(row) else Skip
    case DeleteKeysOf(account, receipt, height) => if account == k.account then DeleteLive(receipt, height) else Skip
  }

  function AllKeyAt(qs: seq<KeySql>, k: KeyId): seq<Statement> {
    seq(|qs|, i requires 0 <= i < |qs| => KeyAt(qs[i], k))
  }

  /** The arms of the folding loop; deleting an account marks the keys folded so far. */
  method FoldAction(keys: KeyTable, deleted: map<AccountId, Hash>, e: Event, height: nat, implicitKey: ImplicitKey)
    returns (keys': KeyTable, deleted': map<AccountId, Hash>)
    ensures forall k :: Get(keys', k) == KeyStep(Get(keys, k), e, k, height, implicitKey)
    ensures forall a :: Get(deleted', a) ==
                        if e.receiver == a && e.action.DeleteAccount? then Some(e.receipt) else Get(deleted, a)
  {
    keys', deleted' := keys, deleted;
    match e.action
    case DeleteAccount =>
      deleted' := deleted[e.receiver := e.receipt];
      keys' := map k | k in keys :: if k.account == e.receiver then keys[k].(deleted := Some(e.receipt)) else keys[k];
    case AddKey(pk) =>
      keys' := keys[KeyId(pk, e.receiver) := Row(Some(e.receipt), None, height)];
    case DeleteKey(pk) =>
      var key := KeyId(pk, e.receiver);
      var row := if key in keys then keys[key] else Row(None, None, height);
      keys' := keys[key := row.(deleted := Some(e.receipt))];
    case Transfer =>
      if |e.receiver| == 64 && implicitKey(e.receiver).Some? {
        keys' := keys[KeyId(implicitKey(e.receiver).value, e.receiver) := Row(Some(e.receipt), None, height)];
      }
    case _ =>
  }

  /** The folding loop over the actions of successful receipts. */
  method CollectAccessKeys(outcomes: seq<ExecutedReceipt>, height: nat, implicitKey: ImplicitKey)
    returns (keys: KeyTable, deleted: map<AccountId, Hash>)
    ensures forall k :: Get(keys, k) == KeyEntry(EventsOf(outcomes), k, height, implicitKey)
    ensures forall a :: Get(deleted, a) == DeletedBy(EventsOf(outcomes), a)
  {
    keys, deleted := map[], map[];
    for i := 0 to |outcomes|
      invariant forall k :: Get(keys, k) == KeyEntry(EventsOf(outcomes[..i]), k, height, implicitKey)
      invariant forall a :: Get(deleted, a) == DeletedBy(EventsOf(outcomes[..i]), a)
    {
      ghost var events, after := EventsOf(outcomes[..i]), EventsOf(outcomes[..i + 1]);
      var r := outcomes[i].receipt;
      assert Front(outcomes[..i + 1]) == outcomes[..i];
      assert after == events + if outcomes[i].success then ActionEvents(r) else [];
      assert events + [] == events;
      if outcomes[i].success && r.kind.ActionReceipt? {
        assert events + ActionEvents(r)[..0] == events;
        for j := 0 to |r.kind.actions|
          invariant forall k :: Get(keys, k) == KeyEntry(events + ActionEvents(r)[..j], k, height, implicitKey)
          invariant forall a :: Get(deleted, a) == DeletedBy(events + ActionEvents(r)[..j], a)
        {
          assert Front(events + ActionEvents(r)[..j + 1]) == events + ActionEvents(r)[..j];
          keys, deleted := FoldAction(keys, deleted, Event(r.receiver, r.id, r.kind.actions[j]), height, implicitKey);
        }
        assert events + ActionEvents(r)[..|r.kind.actions|] == after;
      }
    }
    assert outcomes[..|outcomes|] == outcomes;
  }

  function AddedKeys(keys: KeyTable): KeyTable {
    map k | k in keys && keys[k].created.Some? :: keys[k]
  }

  function UpdateKeysOf(keys: KeyTable, order: seq<KeyId>): seq<KeySql> {
    FlatMap(order, (k: KeyId) => if k in keys && keys[k].created.None? then [UpdateKey(k, keys[k])] else [])
  }

  function AddKeysOf(keys: KeyTable, order: seq<KeyId>): seq<KeySql> {
    [InsertKeys(AddedKeys(keys))]
    + FlatMap(order, (k: KeyId) => if k in keys && keys[k].created.Some? then [OverwriteKey(k, keys[k])] else [])
  }

  function DeleteAllOf(deleted: map<AccountId, Hash>, order: seq<AccountId>, height: nat): seq<KeySql> {
    FlatMap(order, (a: AccountId) => if a in deleted then [DeleteKeysOf(a, deleted[a], height)] else [])
  }

  /** What the three futures issue between them. */
  ghost predicate KeyIssued(q: KeySql, keys: KeyTable, deleted: map<AccountId, Hash>, height: nat) {
    match q
    case InsertKeys(rows) => rows == AddedKeys(keys)
    case UpdateKey(k, row) => k in keys && row == keys[k] && row.created.None?
    case OverwriteKey(k, row) => k in keys && row == keys[k] && row.created.Some?
    case DeleteKeysOf(a, receipt, h) => a in deleted && receipt == deleted[a] && h == height
  }

  lemma ProgramsIssue(keys: KeyTable, deleted: map<AccountId, Hash>, height: nat, order: seq<KeyId>,
      accounts: seq<AccountId>, q: KeySql)
    requires (forall k :: k in order <==> k in keys) && (forall a :: a in accounts <==> a in deleted)
    ensures KeyIssued(q, keys, deleted, height) <==>
            q in DeleteAllOf(deleted, accounts, height) || q in UpdateKeysOf(keys, order) || q in AddKeysOf(keys, order)
  {
    FlatMapHolds(order, (k: KeyId) => if k in keys && keys[k].created.None? then [UpdateKey(k, keys[k])] else [], q);
    FlatMapHolds(order, (k: KeyId) => if k in keys && keys[k].created.Some? then [OverwriteKey(k, keys[k])] else [], q);
    FlatMapHolds(accounts, (a: AccountId) => if a in deleted then [DeleteKeysOf(a, deleted[a], height)] else [], q);
  }

  /** The statements the futures issue reach each row as a schedule of the block at that row. */
  lemma IssuedSchedule(keys: KeyTable, deleted: map<AccountId, Hash>, height: nat, done: seq<KeySql>, k: KeyId)
    requires forall q :: q in done <==> KeyIssued(q, keys, deleted, height)
    ensures Schedule(AllKeyAt(done, k), KeyStatements(Get(deleted, k.account), Get(keys, k), height))
  {
    var ss := AllKeyAt(done, k);
    var statements := KeyStatements(Get(deleted, k.account), Get(keys, k), height);
    forall s: Statement | !s.Skip? ensures s in ss <==> s in statements {
      if s in ss {
        var i :| 0 <= i < |done| && KeyAt(done[i], k) == s;
        assert done[i] in done;
      }
      if s in statements {
        var q :=
          if s.DeleteLive? then DeleteKeysOf(k.account, s.receipt, height)
          else if s.Insert? then InsertKeys(AddedKeys(keys))
          else if s.Delete? then UpdateKey(k, keys[k])
          else OverwriteKey(k, keys[k]);
        assert KeyIssued(q, keys, deleted, height) && KeyAt(q, k) == s;
        var i :| 0 <= i < |done| && done[i] == q;
        assert ss[i] == s;
      }
    }
  }

  class AccessKeysTable {
    var rows: KeyTable

    method Execute(q: KeySql)
      modifies this
      ensures forall k :: Get(rows, k) == Exec(KeyAt(q, k), Get(old(rows), k))
    {
      match q
      case InsertKeys(added) =>
        rows := rows + map k | k in added && k !in rows :: added[k];
      case UpdateKey(k, row) =>
        if k in rows && row.deleted.Some? && rows[k].height < row.height {
          rows := rows[k := rows[k].(deleted := row.deleted, height := row.height)];
        }
      case OverwriteKey(k, row) =>
        if k in rows && rows[k].height < row.height { rows := rows[k := row]; }
      case DeleteKeysOf(account, receipt, height) =>
        rows := map k | k in rows ::
          if k.account == account && rows[k].deleted.None? && rows[k].height < height
          then rows[k].(deleted := Some(receipt), height := height)
          else rows[k];
    }

    /** try_join of three futures, each in its own order, interleaved at will. */
    method Join(deletes: seq<KeySql>, updates: seq<KeySql>, adds: seq<KeySql>) returns (ghost done: seq<KeySql>)
      modifies this
      ensures forall q :: q in done <==> q in deletes || q in updates || q in adds
      ensures forall k :: Get(rows, k) == ExecAll(AllKeyAt(done, k), Get(old(rows), k))
    {
      var d, u, a := 0, 0, 0;
      done := [];
      while
        invariant 0 <= d <= |deletes| && 0 <= u <= |updates| && 0 <= a <= |adds|
        invariant forall q :: q in done <==> q in deletes[..d] || q in updates[..u] || q in adds[..a]
        invariant forall k :: Get(rows, k) == ExecAll(AllKeyAt(done, k), Get(old(rows), k))
        decreases |deletes| - d + |updates| - u + |adds| - a
      {
        case d < |deletes| =>
          OneMore(done, deletes[d], old(rows));
          Execute(deletes[d]);
          done := done + [deletes[d]];
          d := d + 1;
        case u < |updates| =>
          OneMore(done, updates[u], old(rows));
          Execute(updates[u]);
          done := done + [updates[u]];
          u := u + 1;
        case a < |adds| =>
          OneMore(done, adds[a], old(rows));
          Execute(adds[a]);
          done := done + [adds[a]];
          a := a + 1;
      }
      assert deletes[..d] == deletes && updates[..u] == updates && adds[..a] == adds;
    }

    /** Each row ends as under some schedule of the block; the ghost result tells which. */
    method HandleAccessKeys(outcomes: seq<ExecutedReceipt>, height: nat, implicitKey: ImplicitKey)
        returns (ghost done: seq<KeySql>)
      modifies this
      ensures forall k :: Get(rows, k) == ExecAll(AllKeyAt(done, k), Get(old(rows), k))
      ensures forall k :: Schedule(AllKeyAt(done, k), BlockKeyStatements(Block(height, outcomes), k, implicitKey))
    {
      if outcomes == [] { return []; }
      var keys, deleted := CollectAccessKeys(outcomes, height, implicitKey);
      var order := AnyOrder(keys.Keys);
      var accounts := AnyOrder(deleted.Keys);
      done := Join(DeleteAllOf(deleted, accounts, height), UpdateKeysOf(keys, order), AddKeysOf(keys, order));
      forall q ensures q in done <==> KeyIssued(q, keys, deleted, height) {
        ProgramsIssue(keys, deleted, height, order, accounts, q);
      }
      forall k ensures Schedule(AllKeyAt(done, k), BlockKeyStatements(Block(height, outcomes), k, implicitKey)) {
        IssuedSchedule(keys, deleted, height, done, k);
      }
    }
  }

  /** A run is its blocks, one after another, each under some schedule. */
  method HandleBlocks(table: AccessKeysTable, blocks: seq<Block>, implicitKey: ImplicitKey)
    returns (ghost runs: seq<seq<KeySql>>)
    modifies table
    ensures |runs| == |blocks|
    ensures forall k :: Schedules(SchedulesAt(runs, k), blocks, k, implicitKey)
    ensures forall k :: Get(table.rows, k) == ExecBlocks(SchedulesAt(runs, k), Get(old(table.rows), k))
  {
    runs := [];
    for n := 0 to |blocks|
      invariant |runs| == n
      invariant forall k :: Schedules(SchedulesAt(runs, k), blocks[..n], k, implicitKey)
      invariant forall k :: Get(table.rows, k) == ExecBlocks(SchedulesAt(runs, k), Get(old(table.rows), k))
    {
      ghost var done := table.HandleAccessKeys(blocks[n].outcomes, blocks[n].height, implicitKey);
      forall k
        ensures SchedulesAt(runs + [done], k) == SchedulesAt(runs, k) + [AllKeyAt(done, k)]
        ensures Schedules(SchedulesAt(runs + [done], k), blocks[..n + 1], k, implicitKey)
      {
        assert Block(blocks[n].height, blocks[n].outcomes) == blocks[n];
      }
      forall k ensures Front(SchedulesAt(runs + [done], k)) == SchedulesAt(runs, k) {}
      runs := runs + [done];
    }
    assert blocks[..|blocks|] == blocks;
  }

  ghost function SchedulesAt(runs: seq<seq<KeySql>>, k: KeyId): seq<seq<Statement>> {
    seq(|runs|, n requires 0 <= n < |runs| => AllKeyAt(runs[n], k))
  }

  lemma OneMore(done: seq<KeySql>, q: KeySql, rows: KeyTable)
    ensures forall k :: ExecAll(AllKeyAt(done + [q], k), Get(rows, k)) ==
              Exec(KeyAt(q, k), ExecAll(AllKeyAt(done, k), Get(rows, k)))
  {
    forall k
      ensures ExecAll(AllKeyAt(done + [q], k), Get(rows, k)) ==
                Exec(KeyAt(q, k), ExecAll(AllKeyAt(done, k), Get(rows, k)))
    {
      assert Front(AllKeyAt(done + [q], k)) == AllKeyAt(done, k);
    }
  }
}
