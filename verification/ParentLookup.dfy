/** The retry loop that looks for the parent transactions of receipts missing from the cache. */
module ParentLookup {
  import opened Types
  import opened Ancestry
  import opened Tables
  import opened ReceiptsCache

  /** What the three joined tables hold when one pass of the loop reads them; None stands for a
      query that failed on all of its ten attempts. */
  datatype Pass = Pass(
    outputs: seq<Answer>,
    outcomes: Option<seq<Answer>>,
    transactions: Option<seq<Answer>>)

  datatype Lookup =
    | Found(hashes: HashMap, gaveUp: bool)
    | Failed
    | Waiting   // the observed passes are used up and the loop is still retrying

  /** The receipts whose own key is not in the map. */
  function Missed(receipts: seq<Receipt>, found: HashMap): (r: seq<Receipt>)
    ensures forall x :: x in r <==> x in receipts && OwnKey(x) !in found
  {
    FilterHolds(receipts, (r: Receipt) => OwnKey(r) !in found);
    Filter(receipts, (r: Receipt) => OwnKey(r) !in found)
  }

  /** The receipts whose ReceiptId is not in the map: what `retain` leaves inside the loop. */
  function Unresolved(receipts: seq<Receipt>, found: HashMap): (r: seq<Receipt>)
    ensures forall x :: x in r <==> x in receipts && ReceiptId(x.id) !in found
  {
    FilterHolds(receipts, (r: Receipt) => ReceiptId(r.id) !in found);
    Filter(receipts, (r: Receipt) => ReceiptId(r.id) !in found)
  }

  ghost function Ids(receipts: seq<Receipt>): set<Hash> {
    set r | r in receipts :: r.id
  }

  function DataIdsOf(receipts: seq<Receipt>): set<Hash> {
    set r | r in receipts && r.kind.DataReceipt? :: r.kind.dataId
  }

  function ActionIdsOf(receipts: seq<Receipt>): set<Hash> {
    set r | r in receipts && r.kind.ActionReceipt? :: r.id
  }

  /** The rows a query filtered by `any(ids)` returns. */
  function Select(rows: seq<Answer>, ids: set<Hash>): (r: seq<Answer>)
    ensures forall a :: a in r <==> a in rows && a.id in ids
  {
    FilterHolds(rows, (a: Answer) => a.id in ids);
    Filter(rows, (a: Answer) => a.id in ids)
  }

  function AsMap(rows: seq<Answer>): map<Hash, TxHash> {
    if rows == [] then map[] else AsMap(Front(rows))[Last(rows).id := Last(rows).origin]
  }

  /** Data receipts answered through the data ids they carry, under their own receipt ids. */
  function ViaOutputs(receipts: seq<Receipt>, byDataId: map<Hash, TxHash>): seq<Answer> {
    if receipts == [] then []
    else
      var r := Last(receipts);
      var answers := ViaOutputs(Front(receipts), byDataId);
      if r.kind.DataReceipt? && r.kind.dataId in byDataId
      then answers + [Answer(r.id, byDataId[r.kind.dataId])]
      else answers
  }

  function Extend(found: HashMap, rows: seq<Answer>): HashMap {
    found + map id | id in AsMap(rows) :: ReceiptId(id) := AsMap(rows)[id]
  }

  ghost predicate DistinctIds(receipts: seq<Receipt>) {
    forall i, j :: 0 <= i < j < |receipts| ==> receipts[i].id != receipts[j].id
  }

  lemma SameIdSameReceipt(receipts: seq<Receipt>, a: Receipt, b: Receipt)
    requires DistinctIds(receipts) && a in receipts && b in receipts && a.id == b.id
    ensures a == b
  {
    var i :| 0 <= i < |receipts| && receipts[i] == a;
    var j :| 0 <= j < |receipts| && receipts[j] == b;
  }

  ghost predicate UniqueAnswers(rows: seq<Answer>) {
    forall i, j :: 0 <= i < j < |rows| ==> rows[i].id != rows[j].id
  }

  /** Each receipt has at most one producing row in either table. */
  ghost predicate UniqueRows(p: Pass) {
    && (p.outcomes.Some? ==> UniqueAnswers(p.outcomes.value))
    && (p.transactions.Some? ==> UniqueAnswers(p.transactions.value))
  }

  ghost predicate Unique(passes: seq<Pass>) {
    forall p :: p in passes ==> UniqueRows(p)
  }

  /** One of the two action queries fails for good. */
  predicate Broken(p: Pass) {
    p.outcomes.None? || p.transactions.None?
  }

  predicate AnyBroken(passes: seq<Pass>) {
    exists p :: p in passes && Broken(p)
  }

  ghost predicate HasAnswer(rows: seq<Answer>, id: Hash) {
    exists a :: a in rows && a.id == id
  }

  /** One pass that could answer `r` from the database. */
  ghost predicate CanAnswer(p: Pass, r: Receipt) {
    match r.kind
    case DataReceipt(d) => HasAnswer(p.outputs, d)
    case ActionReceipt(_, _, _) =>
      || (p.outcomes.Some? && HasAnswer(p.outcomes.value, r.id))
      || (p.transactions.Some? && HasAnswer(p.transactions.value, r.id))
  }

  /** The pass holds `h` as an answer for `r`. */
  ghost predicate Offers(p: Pass, r: Receipt, h: TxHash) {
    match r.kind
    case DataReceipt(d) => Answer(d, h) in p.outputs
    case ActionReceipt(_, _, _) =>
      || (p.outcomes.Some? && Answer(r.id, h) in p.outcomes.value)
      || (p.transactions.Some? && Answer(r.id, h) in p.transactions.value)
  }

  ghost predicate AnswersAll(p: Pass, receipts: seq<Receipt>) {
    forall r :: r in receipts ==> CanAnswer(p, r)
  }

  ghost predicate SoundPass(c: Chain, p: Pass) {
    && SoundOutputs(c, p.outputs)
    && (p.outcomes.Some? ==> SoundAnswers(c, p.outcomes.value))
    && (p.transactions.Some? ==> SoundAnswers(c, p.transactions.value))
  }

  ghost predicate SoundPasses(c: Chain, passes: seq<Pass>) {
    forall p :: p in passes ==> SoundPass(c, p)
  }

  ghost predicate OnChain(c: Chain, receipts: seq<Receipt>) {
    forall r :: r in receipts ==>
      match r.kind
      case ActionReceipt(_, _, outputs) => r.id !in c.carries && forall d :: d in outputs ==> (r.id, d) in c.names
      case DataReceipt(d) => r.id in c.carries && c.carries[r.id] == d
  }

  lemma {:induction false} AsMapHolds(rows: seq<Answer>)
    ensures forall id :: id in AsMap(rows) <==> HasAnswer(rows, id)
    ensures forall id :: id in AsMap(rows) ==> Answer(id, AsMap(rows)[id]) in rows
  {
    if rows != [] {
      AsMapHolds(Front(rows));
      assert rows == Front(rows) + [Last(rows)];
      forall id ensures HasAnswer(rows, id) <==> id == Last(rows).id || HasAnswer(Front(rows), id) {
        if id == Last(rows).id { assert Last(rows) in rows; }
      }
    }
  }

  lemma {:induction false} ViaOutputsHolds(receipts: seq<Receipt>, m: map<Hash, TxHash>)
    ensures |ViaOutputs(receipts, m)| <= |receipts|
    ensures forall a :: a in ViaOutputs(receipts, m) <==>
              exists r :: r in receipts && r.kind.DataReceipt? && r.kind.dataId in m
                  && a == Answer(r.id, m[r.kind.dataId])
    ensures |ViaOutputs(receipts, m)| == |receipts| <==>
              forall r :: r in receipts ==> r.kind.DataReceipt? && r.kind.dataId in m
  {
    if receipts != [] {
      ViaOutputsHolds(Front(receipts), m);
      assert receipts == Front(receipts) + [Last(receipts)];
      assert forall r :: r in receipts <==> r in Front(receipts) || r == Last(receipts);
    }
  }

  lemma IdsOfDistinct(receipts: seq<Receipt>)
    requires DistinctIds(receipts)
    ensures |Ids(receipts)| == |receipts|
  {
    var ids := seq(|receipts|, i requires 0 <= i < |receipts| => receipts[i].id);
    DistinctSize(ids);
    assert Ids(receipts) == set x | x in ids by {
      forall r | r in receipts ensures r.id in ids {
        var i :| 0 <= i < |receipts| && receipts[i] == r;
        assert ids[i] == r.id;
      }
    }
  }

  lemma IdsOfUnique(rows: seq<Answer>)
    requires UniqueAnswers(rows)
    ensures |set a | a in rows :: a.id| == |rows|
  {
    var ids := seq(|rows|, i requires 0 <= i < |rows| => rows[i].id);
    DistinctSize(ids);
    assert (set a | a in rows :: a.id) == set x | x in ids by {
      forall a | a in rows ensures a.id in ids {
        var i :| 0 <= i < |rows| && rows[i] == a;
        assert ids[i] == a.id;
      }
    }
  }

  lemma {:induction false} SelectUnique(rows: seq<Answer>, ids: set<Hash>)
    requires UniqueAnswers(rows)
    ensures UniqueAnswers(Select(rows, ids))
  {
    if rows != [] {
      SelectUnique(Front(rows), ids);
      assert Select(rows, ids) == Select(Front(rows), ids) + if Last(rows).id in ids then [Last(rows)] else [];
      forall a | a in Select(Front(rows), ids) ensures a.id != Last(rows).id {
        var i :| 0 <= i < |rows| - 1 && rows[i] == a;
      }
    }
  }

  lemma {:induction false} UnresolvedDistinct(receipts: seq<Receipt>, p: Receipt -> bool)
    requires DistinctIds(receipts)
    ensures DistinctIds(Filter(receipts, p))
  {
    if receipts != [] {
      UnresolvedDistinct(Front(receipts), p);
      FilterHolds(Front(receipts), p);
      forall r | r in Filter(Front(receipts), p) ensures r.id != Last(receipts).id {
        var i :| 0 <= i < |receipts| - 1 && receipts[i] == r;
      }
    }
  }

  /** With unique rows, a query returns as many rows as there are receipts pending exactly when it
      answers every one of them: the row count may stand for the answers. */
  lemma RowCountShortcut(pending: seq<Receipt>, rows: seq<Answer>)
    requires DistinctIds(pending) && UniqueAnswers(rows)
    ensures |Select(rows, ActionIdsOf(pending))| == |pending| <==>
            forall r :: r in pending ==> r.kind.ActionReceipt? && HasAnswer(rows, r.id)
  {
    var ids := ActionIdsOf(pending);
    var answers := Select(rows, ids);
    var answered := set a | a in answers :: a.id;
    SelectUnique(rows, ids);
    IdsOfUnique(answers);
    IdsOfDistinct(pending);
    assert answered <= ids <= Ids(pending);
    if |answers| == |pending| {
      SameSizeSubset(answered, Ids(pending));
      forall r | r in pending ensures r.kind.ActionReceipt? && HasAnswer(rows, r.id) {
        assert r.id in Ids(pending);
        var a :| a in answers && a.id == r.id;
        assert a in rows;
        var q :| q in pending && q.kind.ActionReceipt? && q.id == r.id;
        SameIdSameReceipt(pending, q, r);
      }
    }
    if forall r :: r in pending ==> r.kind.ActionReceipt? && HasAnswer(rows, r.id) {
      forall id | id in Ids(pending) ensures id in answered {
        var r :| r in pending && r.id == id;
        var a :| a in rows && a.id == id;
        assert id in ids && a in answers;
      }
      assert answered == Ids(pending);
    }
  }

  // ---- Only then -------------------------------------------------------------------------------

  /** Whatever is pending, the row count reaches it only when everything pending is answered. */
  ghost predicate ShortcutSound(rows: seq<Answer>) {
    forall pending ::
      DistinctIds(pending) && |Select(rows, ActionIdsOf(pending))| == |pending| ==> Answered(rows, pending)
  }

  function AboveIds(rows: seq<Answer>): (n: nat)
    ensures forall a :: a in rows ==> a.id < n
  {
    if rows == [] then 0
    else
      var n := AboveIds(Front(rows));
      assert forall a :: a in rows ==> a in Front(rows) || a == Last(rows);
      if Last(rows).id < n then n else Last(rows).id + 1
  }

  function PlainReceipt(id: Hash): Receipt {
    Receipt(id, "", ActionReceipt([], [], []))
  }

  /** Receipt `id` followed by `more` receipts without an answer. */
  function Unanswerable(id: Hash, from: nat, more: nat): seq<Receipt> {
    [PlainReceipt(id)] + seq(more, i requires 0 <= i < more => PlainReceipt(from + i))
  }

  lemma {:induction false} TwiceSelected(rows: seq<Answer>, i: nat, j: nat)
    requires i < j < |rows| && rows[i].id == rows[j].id
    ensures |Select(rows, {rows[i].id})| >= 2
  {
    var front := Front(rows);
    if j < |front| {
      TwiceSelected(front, i, j);
    } else {
      assert front[i] in Select(front, {rows[i].id});
    }
  }

  lemma SelectSame(rows: seq<Answer>, ids: set<Hash>, others: set<Hash>)
    requires forall a :: a in rows ==> (a.id in ids <==> a.id in others)
    ensures Select(rows, ids) == Select(rows, others)
  {
    FilterSame(rows, (a: Answer) => a.id in ids, (a: Answer) => a.id in others);
  }

  lemma CountFooled(rows: seq<Answer>, i: nat, j: nat)
    requires i < j < |rows| && rows[i].id == rows[j].id
    ensures !ShortcutSound(rows)
  {
    var id, n := rows[i].id, AboveIds(rows);
    var more := |Select(rows, {id})| - 1;
    TwiceSelected(rows, i, j);
    var pending := Unanswerable(id, n, more);
    assert pending[0].id == id && rows[i] in rows;
    assert forall k :: 1 <= k < |pending| ==> pending[k] == PlainReceipt(n + k - 1);
    assert DistinctIds(pending);
    assert pending[0] in pending && pending[1] in pending;
    assert forall r :: r in pending ==> r.id == id || n <= r.id;
    assert forall a :: a in rows ==> (a.id in ActionIdsOf(pending) <==> a.id in {id});
    SelectSame(rows, ActionIdsOf(pending), {id});
    assert !HasAnswer(rows, pending[1].id);
    assert !Answered(rows, pending);
  }

  /** The shortcut is sound for whatever may be pending exactly when no receipt has two rows. */
  lemma ShortcutSoundExactly(rows: seq<Answer>)
    ensures ShortcutSound(rows) <==> UniqueAnswers(rows)
  {
    if UniqueAnswers(rows) {
      forall pending | DistinctIds(pending) && |Select(rows, ActionIdsOf(pending))| == |pending|
        ensures Answered(rows, pending)
      {
        RowCountShortcut(pending, rows);
      }
    } else if i, j :| 0 <= i < j < |rows| && rows[i].id == rows[j].id {
      CountFooled(rows, i, j);
    }
  }

  /** Only the ReceiptIds of missed receipts may gain or change an answer. */
  ghost predicate OnlyAnswers(missed: seq<Receipt>, start: HashMap, found: HashMap) {
    && (forall key :: key in start ==> key in found)
    && (forall key :: key in found && !(key.ReceiptId? && key.id in Ids(missed)) ==>
        key in start && found[key] == start[key])
  }

  /** What `found` still owes the requested receipts: `pending` are those of `missed` without an
      answer, and everything new answers one of them. */
  ghost predicate Progress(missed: seq<Receipt>, start: HashMap, found: HashMap, pending: seq<Receipt>) {
    && pending == Unresolved(missed, found)
    && OnlyAnswers(missed, start, found)
  }

  /** What is answered after the rows of a query came in. */
  lemma ExtendHolds(found: HashMap, rows: seq<Answer>)
    ensures forall id :: ReceiptId(id) in Extend(found, rows) <==> ReceiptId(id) in found || HasAnswer(rows, id)
    ensures forall key :: key in found ==> key in Extend(found, rows)
    ensures forall key :: key in Extend(found, rows) && !(key.ReceiptId? && HasAnswer(rows, key.id)) ==>
              key in found && Extend(found, rows)[key] == found[key]
  {
    AsMapHolds(rows);
  }

  lemma UnresolvedTwice(missed: seq<Receipt>, found: HashMap, next: HashMap)
    requires forall key :: key in found ==> key in next
    ensures Unresolved(Unresolved(missed, found), next) == Unresolved(missed, next)
  {
    FilterTwice(missed, (r: Receipt) => ReceiptId(r.id) !in found, (r: Receipt) => ReceiptId(r.id) !in next);
  }

  lemma OnlyAnswersExtends(missed: seq<Receipt>, start: HashMap, found: HashMap, rows: seq<Answer>)
    requires OnlyAnswers(missed, start, found) && forall a :: a in rows ==> a.id in Ids(missed)
    ensures OnlyAnswers(missed, start, Extend(found, rows))
  {
    ExtendHolds(found, rows);
  }

  lemma ProgressExtends(
    missed: seq<Receipt>, start: HashMap, found: HashMap, pending: seq<Receipt>, rows: seq<Answer>)
    requires Progress(missed, start, found, pending)
    requires forall a :: a in rows ==> a.id in Ids(pending)
    ensures var next := Extend(found, rows);
            Progress(missed, start, next, Unresolved(pending, next))
    ensures forall r :: r in Unresolved(pending, Extend(found, rows)) ==> !HasAnswer(rows, r.id)
  {
    assert forall id :: id in Ids(pending) ==> id in Ids(missed);
    OnlyAnswersExtends(missed, start, found, rows);
    ExtendHolds(found, rows);
    UnresolvedTwice(missed, found, Extend(found, rows));
  }

  lemma ExtendSound(c: Chain, found: HashMap, rows: seq<Answer>)
    requires c.Sound(found) && SoundAnswers(c, rows)
    ensures c.Sound(Extend(found, rows))
  {
    AsMapHolds(rows);
  }

  ghost predicate SoundOutputs(c: Chain, outputs: seq<Answer>) {
    forall a :: a in outputs ==> c.Originates(DataId(a.id), a.origin.hash)
  }

  ghost predicate SoundAnswers(c: Chain, rows: seq<Answer>) {
    forall a :: a in rows ==> c.Originates(ReceiptId(a.id), a.origin.hash)
  }

  ghost predicate DataAnswered(outputs: seq<Answer>, receipts: seq<Receipt>) {
    forall r :: r in receipts && r.kind.DataReceipt? ==> HasAnswer(outputs, r.kind.dataId)
  }

  ghost predicate Answered(table: seq<Answer>, receipts: seq<Receipt>) {
    forall r :: r in receipts ==> r.kind.ActionReceipt? && HasAnswer(table, r.id)
  }

  function OutputRows(outputs: seq<Answer>, pending: seq<Receipt>): seq<Answer> {
    ViaOutputs(pending, AsMap(Select(outputs, DataIdsOf(pending))))
  }

  lemma SelectedMap(rows: seq<Answer>, ids: set<Hash>)
    ensures forall id :: id in AsMap(Select(rows, ids)) <==> id in ids && HasAnswer(rows, id)
    ensures forall id :: id in AsMap(Select(rows, ids)) ==> Answer(id, AsMap(Select(rows, ids))[id]) in rows
  {
    AsMapHolds(Select(rows, ids));
    forall id | id in ids && HasAnswer(rows, id) ensures HasAnswer(Select(rows, ids), id) {
      var a :| a in rows && a.id == id;
      assert a in Select(rows, ids);
    }
  }

  /** What the answers for data receipts contain: a receipt is answered exactly when its data id
      is, and the answer names the root the data receipt takes. */
  lemma OutputAnswers(outputs: seq<Answer>, pending: seq<Receipt>)
    ensures forall a :: a in OutputRows(outputs, pending) ==>
              exists r :: r in pending && r.kind.DataReceipt? && a.id == r.id
                  && Answer(r.kind.dataId, a.origin) in outputs
    ensures forall r :: r in pending && r.kind.DataReceipt? && HasAnswer(outputs, r.kind.dataId) ==>
              HasAnswer(OutputRows(outputs, pending), r.id)
    ensures |OutputRows(outputs, pending)| == |pending| ==>
              forall r :: r in pending ==> HasAnswer(OutputRows(outputs, pending), r.id)
  {
    var byDataId := AsMap(Select(outputs, DataIdsOf(pending)));
    SelectedMap(outputs, DataIdsOf(pending));
    ViaOutputsHolds(pending, byDataId);
    forall r | r in pending && r.kind.DataReceipt? && HasAnswer(outputs, r.kind.dataId)
      ensures HasAnswer(OutputRows(outputs, pending), r.id)
    {
      assert Answer(r.id, byDataId[r.kind.dataId]) in OutputRows(outputs, pending);
    }
  }

  lemma OutputAnswersSound(c: Chain, outputs: seq<Answer>, pending: seq<Receipt>)
    requires OnChain(c, pending) && SoundOutputs(c, outputs)
    ensures SoundAnswers(c, OutputRows(outputs, pending))
  {
    OutputAnswers(outputs, pending);
  }

  /** Answers once found are never changed. */
  ghost predicate Keeps(found: HashMap, next: HashMap) {
    forall key :: key in found ==> key in next && next[key] == found[key]
  }

  lemma PendingKeeps(missed: seq<Receipt>, found: HashMap, pending: seq<Receipt>, rows: seq<Answer>)
    requires pending == Unresolved(missed, found) && forall a :: a in rows ==> a.id in Ids(pending)
    ensures Keeps(found, Extend(found, rows))
  {
    ExtendHolds(found, rows);
  }

  lemma NewValue(found: HashMap, rows: seq<Answer>, id: Hash)
    requires ReceiptId(id) !in found && ReceiptId(id) in Extend(found, rows)
    ensures Answer(id, Extend(found, rows)[ReceiptId(id)]) in rows
  {
    AsMapHolds(rows);
  }

  /** What the query for data receipts adds: for each pending receipt it answers, one of its answers. */
  lemma OutputsAdd(missed: seq<Receipt>, start: HashMap, found: HashMap, pending: seq<Receipt>, outputs: seq<Answer>)
    requires Progress(missed, start, found, pending) && DistinctIds(missed)
    ensures Keeps(found, Extend(found, OutputRows(outputs, pending)))
    ensures forall r :: r in pending && ReceiptId(r.id) in Extend(found, OutputRows(outputs, pending)) ==>
              && r.kind.DataReceipt?
              && Answer(r.kind.dataId, Extend(found, OutputRows(outputs, pending))[ReceiptId(r.id)]) in outputs
  {
    var rows := OutputRows(outputs, pending);
    OutputAnswers(outputs, pending);
    PendingKeeps(missed, found, pending, rows);
    forall r | r in pending && ReceiptId(r.id) in Extend(found, rows)
      ensures r.kind.DataReceipt? && Answer(r.kind.dataId, Extend(found, rows)[ReceiptId(r.id)]) in outputs
    {
      NewValue(found, rows, r.id);
      var q :| q in pending && q.kind.DataReceipt? && r.id == q.id
               && Answer(q.kind.dataId, Extend(found, rows)[ReceiptId(r.id)]) in outputs;
      SameIdSameReceipt(missed, q, r);
    }
  }

  /** The same of a query for action receipts. */
  lemma ActionsAdd(missed: seq<Receipt>, start: HashMap, found: HashMap, pending: seq<Receipt>, table: seq<Answer>)
    requires Progress(missed, start, found, pending) && DistinctIds(missed)
    ensures var next := Extend(found, Select(table, ActionIdsOf(pending)));
            && Keeps(found, next)
            && (forall r :: r in pending && ReceiptId(r.id) in next ==>
                  r.kind.ActionReceipt? && Answer(r.id, next[ReceiptId(r.id)]) in table)
  {
    var rows := Select(table, ActionIdsOf(pending));
    ActionAnswers(table, pending);
    PendingKeeps(missed, found, pending, rows);
    forall r | r in pending && ReceiptId(r.id) in Extend(found, rows)
      ensures r.kind.ActionReceipt? && Answer(r.id, Extend(found, rows)[ReceiptId(r.id)]) in table
    {
      NewValue(found, rows, r.id);
      assert r.id in ActionIdsOf(pending);
      var q :| q in pending && q.kind.ActionReceipt? && q.id == r.id;
      SameIdSameReceipt(missed, q, r);
    }
  }

  /** The query for data receipts: the data ids still pending are looked up among the outputs of
      stored receipts, and the answers are filed under the receipt ids. */
  method AskOutputs(ghost missed: seq<Receipt>, ghost start: HashMap, outputs: seq<Answer>,
                    found: HashMap, pending: seq<Receipt>)
    returns (next: HashMap, left: seq<Receipt>, done: bool)
    requires Progress(missed, start, found, pending) && DistinctIds(missed)
    ensures Progress(missed, start, next, left)
    ensures done ==> left == []
    ensures forall r :: r in left ==> r in pending && !(r.kind.DataReceipt? && HasAnswer(outputs, r.kind.dataId))
    ensures Keeps(found, next)
    ensures forall r :: r in pending && ReceiptId(r.id) in next ==>
              r.kind.DataReceipt? && Answer(r.kind.dataId, next[ReceiptId(r.id)]) in outputs
    ensures DataAnswered(outputs, pending) ==> forall r :: r in left ==> r.kind.ActionReceipt?
  {
    next, left, done := found, pending, false;
    if DataIdsOf(pending) != {} {
      var rows := OutputRows(outputs, pending);
      OutputAnswers(outputs, pending);
      ProgressExtends(missed, start, found, pending, rows);
      OutputsAdd(missed, start, found, pending, outputs);
      next := Extend(found, rows);
      left := Unresolved(pending, next);
      done := |rows| == |pending|;
      assert left != [] ==> left[0] in left;
    } else {
      assert forall r :: r in pending && r.kind.DataReceipt? ==> r.kind.dataId in DataIdsOf(pending);
    }
  }

  lemma ActionAnswers(table: seq<Answer>, pending: seq<Receipt>)
    ensures forall a :: a in Select(table, ActionIdsOf(pending)) ==> a.id in Ids(pending)
    ensures forall r :: r in pending && r.kind.ActionReceipt? && HasAnswer(table, r.id) ==>
              HasAnswer(Select(table, ActionIdsOf(pending)), r.id)
  {
    forall r | r in pending && r.kind.ActionReceipt? && HasAnswer(table, r.id)
      ensures HasAnswer(Select(table, ActionIdsOf(pending)), r.id)
    {
      var a :| a in table && a.id == r.id;
      assert r.id in ActionIdsOf(pending);
      assert a in Select(table, ActionIdsOf(pending));
    }
  }

  /** A query for action receipts, by the outcomes that produced them or the transactions converted
      into them; `done` is the row-count test that leaves the loop. */
  method AskActions(ghost missed: seq<Receipt>, ghost start: HashMap, table: seq<Answer>,
                    found: HashMap, pending: seq<Receipt>)
    returns (next: HashMap, left: seq<Receipt>, done: bool)
    requires Progress(missed, start, found, pending) && DistinctIds(missed)
    ensures Progress(missed, start, next, left)
    ensures UniqueAnswers(table) ==> (done <==> Answered(table, pending)) && (done ==> left == [])
    ensures forall r :: r in left ==> r in pending && !(r.kind.ActionReceipt? && HasAnswer(table, r.id))
    ensures Keeps(found, next)
    ensures forall r :: r in pending && ReceiptId(r.id) in next ==>
              r.kind.ActionReceipt? && Answer(r.id, next[ReceiptId(r.id)]) in table
  {
    var rows := Select(table, ActionIdsOf(pending));
    ActionAnswers(table, pending);
    ProgressExtends(missed, start, found, pending, rows);
    ActionsAdd(missed, start, found, pending, table);
    next := Extend(found, rows);
    done := |rows| == |pending|;
    left := Unresolved(pending, next);
    UnresolvedDistinct(missed, (r: Receipt) => ReceiptId(r.id) !in found);
    if UniqueAnswers(table) { RowCountShortcut(pending, table); }
    assert left != [] ==> left[0] in left;
  }

  datatype Exit = Leave | Abort | Again

  /** The first query answered some of `pending`, the second some of what it left. */
  lemma NewFromBoth(missed: seq<Receipt>, pass: Pass, pending: seq<Receipt>, found: HashMap, next: HashMap,
      last: HashMap)
    requires pending == Unresolved(missed, found) && Keeps(found, next) && Keeps(next, last)
    requires NewFrom(pass, pending, next) && NewFrom(pass, Unresolved(missed, next), last)
    ensures Keeps(found, last) && NewFrom(pass, pending, last)
  {
    forall r | r in pending && ReceiptId(r.id) in last ensures Offers(pass, r, last[ReceiptId(r.id)]) {
      if ReceiptId(r.id) !in next { assert r in Unresolved(missed, next); }
    }
  }

  /** The two queries for action receipts. */
  method TryActions(ghost missed: seq<Receipt>, ghost start: HashMap, pass: Pass, found: HashMap,
      pending: seq<Receipt>)
    returns (next: HashMap, left: seq<Receipt>, exit: Exit)
    requires Progress(missed, start, found, pending) && DistinctIds(missed)
    ensures Progress(missed, start, next, left)
    ensures exit.Leave? && UniqueRows(pass) ==> left == []
    ensures UniqueRows(pass) && (forall r :: r in pending ==> r.kind.ActionReceipt? && CanAnswer(pass, r)) ==>
              !exit.Again?
    ensures exit.Abort? ==> Broken(pass)
    ensures exit.Again? ==> !Broken(pass)
    ensures Keeps(found, next) && NewFrom(pass, pending, next)
    ensures exit.Again? ==> forall r :: r in left ==> r in pending && !(r.kind.ActionReceipt? && CanAnswer(pass, r))
  {
    var done;
    if pass.outcomes.None? { return found, pending, Abort; }
    next, left, done := AskActions(missed, start, pass.outcomes.value, found, pending);
    if done { return next, left, Leave; }
    if pass.transactions.None? { return next, left, Abort; }
    ghost var middle := next;
    next, left, done := AskActions(missed, start, pass.transactions.value, next, left);
    NewFromBoth(missed, pass, pending, found, middle, next);
    exit := if done then Leave else Again;
  }

  /** One pass of the loop over the answers of its three queries. */
  method TryPass(ghost missed: seq<Receipt>, ghost start: HashMap, pass: Pass, found: HashMap,
      pending: seq<Receipt>)
    returns (next: HashMap, left: seq<Receipt>, exit: Exit)
    requires Progress(missed, start, found, pending) && DistinctIds(missed)
    ensures Progress(missed, start, next, left)
    ensures exit.Leave? && UniqueRows(pass) ==> AllResolved(missed, next)
    ensures UniqueRows(pass) && AnswersAll(pass, missed) ==> !exit.Again?
    ensures exit.Abort? ==> Broken(pass)
    ensures exit.Again? ==> !Broken(pass)
    ensures Keeps(found, next) && NewFrom(pass, pending, next)
    ensures exit.Again? ==> forall r :: r in left ==> !CanAnswer(pass, r)
  {
    assert forall r :: r in pending ==> r in missed;
    var done;
    next, left, done := AskOutputs(missed, start, pass.outputs, found, pending);
    exit := Leave;
    if !done {
      ghost var middle := next;
      next, left, exit := TryActions(missed, start, pass, next, left);
      NewFromBoth(missed, pass, pending, found, middle, next);
    }
    if left == [] { NothingPending(missed, next); }
  }

  /** Whatever is answered of these receipts is an answer of the pass. */
  ghost predicate NewFrom(pass: Pass, pending: seq<Receipt>, next: HashMap) {
    forall r :: r in pending && ReceiptId(r.id) in next ==> Offers(pass, r, next[ReceiptId(r.id)])
  }

  ghost predicate AllResolved(receipts: seq<Receipt>, found: HashMap) {
    forall r :: r in receipts ==> ReceiptId(r.id) in found
  }

  lemma NothingPending(missed: seq<Receipt>, found: HashMap)
    requires Unresolved(missed, found) == []
    ensures AllResolved(missed, found)
  {
    assert forall r :: r in missed && ReceiptId(r.id) !in found ==> r in Unresolved(missed, found);
  }

  /** A receipt the cache missed has no answer under its ReceiptId either. */
  lemma MissedUnresolved(receipts: seq<Receipt>, cached: HashMap)
    requires DistinctIds(receipts) && forall key :: key in cached ==> Asked(receipts, key)
    ensures Unresolved(Missed(receipts, cached), cached) == Missed(receipts, cached)
  {
    forall r | r in Missed(receipts, cached) ensures ReceiptId(r.id) !in cached {
      if q :| q in receipts && OwnKey(q) == ReceiptId(r.id) {
        SameIdSameReceipt(receipts, q, r);
      }
    }
    FilterKeepsAll(Missed(receipts, cached), (r: Receipt) => ReceiptId(r.id) !in cached);
  }

  /** Passes in which no query failed, and that could not answer everything. */
  ghost predicate Futile(passes: seq<Pass>, missed: seq<Receipt>) {
    forall p :: p in passes ==> !Broken(p) && (UniqueRows(p) ==> !AnswersAll(p, missed))
  }

  /** Every answer for one of these receipts was offered by one of the passes. */
  ghost predicate OfferedBy(passes: seq<Pass>, missed: seq<Receipt>, found: HashMap) {
    forall r :: r in missed && ReceiptId(r.id) in found ==>
      exists p :: p in passes && Offers(p, r, found[ReceiptId(r.id)])
  }

  /** Whatever a pass could answer is answered. */
  ghost predicate Exhausted(passes: seq<Pass>, missed: seq<Receipt>, found: HashMap) {
    forall p, r :: p in passes && r in missed && CanAnswer(p, r) ==> ReceiptId(r.id) in found
  }

  /** What holds after passes none of which left the loop. */
  ghost predicate Tried(passes: seq<Pass>, missed: seq<Receipt>, cached: HashMap, found: HashMap) {
    Keeps(cached, found) && OfferedBy(passes, missed, found) && Exhausted(passes, missed, found)
        && Futile(passes, missed)
  }

  lemma NothingTried(missed: seq<Receipt>, cached: HashMap)
    requires Unresolved(missed, cached) == missed
    ensures Tried([], missed, cached, cached)
  {
    assert forall r :: r in missed ==> r in Unresolved(missed, cached);
  }

  lemma PassOffers(passes: seq<Pass>, p: Pass, missed: seq<Receipt>, found: HashMap, next: HashMap)
    requires OfferedBy(passes, missed, found) && Keeps(found, next) && NewFrom(p, Unresolved(missed, found), next)
    ensures OfferedBy(passes + [p], missed, next)
  {
    forall r | r in missed && ReceiptId(r.id) in next
      ensures exists q :: q in passes + [p] && Offers(q, r, next[ReceiptId(r.id)])
    {
      if ReceiptId(r.id) in found {
        var q :| q in passes && Offers(q, r, found[ReceiptId(r.id)]);
        assert q in passes + [p];
      } else {
        assert r in Unresolved(missed, found) && p in passes + [p];
      }
    }
  }

  /** One more pass that did not leave the loop. */
  lemma TriedAgain(passes: seq<Pass>, p: Pass, missed: seq<Receipt>, cached: HashMap, found: HashMap, next: HashMap)
    requires Tried(passes, missed, cached, found) && !Broken(p) && (UniqueRows(p) ==> !AnswersAll(p, missed))
    requires Keeps(found, next) && NewFrom(p, Unresolved(missed, found), next)
    requires forall r :: r in Unresolved(missed, next) ==> !CanAnswer(p, r)
    ensures Tried(passes + [p], missed, cached, next)
  {
    PassOffers(passes, p, missed, found, next);
    assert forall r :: r in missed && ReceiptId(r.id) !in next ==> r in Unresolved(missed, next);
  }

  lemma ResolvedExhausts(passes: seq<Pass>, missed: seq<Receipt>, found: HashMap)
    requires AllResolved(missed, found)
    ensures Exhausted(passes, missed, found)
  {
  }

  /** What a lookup may return after using these passes: what the cache knew, and answers of the passes;
      everything they could answer, if no receipt has two rows in one of them. */
  ghost predicate Answers(passes: seq<Pass>, missed: seq<Receipt>, cached: HashMap, found: HashMap) {
    && Keeps(cached, found) && OfferedBy(passes, missed, found)
    && (Unique(passes) ==> Exhausted(passes, missed, found))
  }

  /** How far the passes went: all but the last were futile; failing takes a failing query in the last,
      going on or giving up that it was futile too; only strict mode waits longer than five passes. */
  ghost predicate WentThrough(passes: seq<Pass>, missed: seq<Receipt>, out: Lookup, strict: bool) {
    && (passes != [] ==> Futile(Front(passes), missed))
    && (out.Failed? ==> passes != [] && Broken(Last(passes)))
    && (out.Waiting? || (out.Found? && out.gaveUp) ==> Futile(passes, missed))
    && (out.Waiting? && !strict ==> |passes| < 5)
    && (out.Found? && out.gaveUp ==> !strict && |passes| == 5)
    && (!strict ==> |passes| <= 5)
  }

  /** A pass of the loop, with what the passes before it have found. */
  method NextPass(ghost missed: seq<Receipt>, ghost cached: HashMap, ghost before: seq<Pass>, pass: Pass,
      found: HashMap, pending: seq<Receipt>)
    returns (next: HashMap, left: seq<Receipt>, exit: Exit)
    requires Progress(missed, cached, found, pending) && DistinctIds(missed)
    requires Tried(before, missed, cached, found)
    ensures Progress(missed, cached, next, left)
    ensures Answers(before + [pass], missed, cached, next) || exit.Abort?
    ensures exit.Again? ==> Tried(before + [pass], missed, cached, next)
    ensures exit.Leave? && UniqueRows(pass) ==> AllResolved(missed, next)
    ensures exit.Abort? ==> Broken(pass)
  {
    next, left, exit := TryPass(missed, cached, pass, found, pending);
    PassOffers(before, pass, missed, found, next);
    if exit.Again? { TriedAgain(before, pass, missed, cached, found, next); }
    if exit.Leave? && UniqueRows(pass) { ResolvedExhausts(before + [pass], missed, next); }
    assert pass in before + [pass];
  }

  lemma LeftAfter(before: seq<Pass>, pass: Pass, missed: seq<Receipt>, out: Lookup, strict: bool)
    requires Futile(before, missed) && (!strict ==> |before| < 5)
    requires match out
             case Found(_, gaveUp) => gaveUp ==> !strict && |before| == 4 && Futile(before + [pass], missed)
             case Failed => Broken(pass)
             case Waiting => false
    ensures WentThrough(before + [pass], missed, out, strict)
  {
    assert Front(before + [pass]) == before;
  }

  lemma UniquePrefix(passes: seq<Pass>, used: nat)
    requires used <= |passes|
    ensures Unique(passes) ==> Unique(passes[..used])
  {
  }

  /** Answers of sound passes beside sound cache hits are sound. */
  lemma AnswersSound(c: Chain, passes: seq<Pass>, missed: seq<Receipt>, cached: HashMap, found: HashMap)
    requires OnChain(c, missed) && c.Sound(cached) && SoundPasses(c, passes)
    requires Answers(passes, missed, cached, found) && OnlyAnswers(missed, cached, found)
    ensures c.Sound(found)
  {
    forall key | key in found ensures c.Originates(key, found[key].hash) {
      if key.ReceiptId? && key.id in Ids(missed) {
        var r :| r in missed && r.id == key.id;
        var p :| p in passes && Offers(p, r, found[key]);
        assert SoundPass(c, p);
      } else {
        assert key in cached && found[key] == cached[key];
      }
    }
  }

  /** The retry loop. Strict mode has no bound in the source, so the loop is followed for as many
      passes as are given. */
  method Retry(missed: seq<Receipt>, cached: HashMap, strict: bool, passes: seq<Pass>)
    returns (out: Lookup, used: nat)
    requires DistinctIds(missed) && Unresolved(missed, cached) == missed
    ensures out.Found? && !out.gaveUp && Unique(passes) ==> AllResolved(missed, out.hashes)
    ensures used <= |passes| && (out.Waiting? ==> used == |passes|)
    ensures WentThrough(passes[..used], missed, out, strict)
    ensures out.Found? ==> Answers(passes[..used], missed, cached, out.hashes)
    ensures out.Found? ==> OnlyAnswers(missed, cached, out.hashes)
  {
    var found, pending := cached, missed;
    var retriesLeft := 4;
    used := 0;
    NothingTried(missed, cached);
    while used < |passes|
      invariant used <= |passes| && Progress(missed, cached, found, pending)
      invariant 0 <= retriesLeft <= 4 && (!strict ==> used + retriesLeft == 4)
      invariant Tried(passes[..used], missed, cached, found)
    {
      ghost var before, pass := passes[..used], passes[used];
      assert passes[..used + 1] == before + [pass];
      var exit;
      found, pending, exit := NextPass(missed, cached, before, passes[used], found, pending);
      used := used + 1;
      match exit
      case Leave =>
        out := Found(found, false);
        LeftAfter(before, pass, missed, out, strict);
        return;
      case Abort =>
        out := Failed;
        LeftAfter(before, pass, missed, out, strict);
        return;
      case Again =>
        if !strict {
          if retriesLeft > 0 {
            retriesLeft := retriesLeft - 1;
          } else {
            out := Found(found, true);
            LeftAfter(before, pass, missed, out, strict);
            return;
          }
        }
    }
    assert passes[..used] == passes;
    return Waiting, used;
  }

  /** The lookup after its stay under the cache lock, `cached` being what the cache answered. */
  method FindTxHashes(ghost c: Chain, receipts: seq<Receipt>, cached: HashMap, strict: bool, passes: seq<Pass>)
    returns (out: Lookup, used: nat)
    requires DistinctIds(receipts)
    requires forall key :: key in cached ==> Asked(receipts, key)
    // Leaving without giving up resolves every receipt the cache missed under its receipt id.
    ensures out.Found? && !out.gaveUp && Unique(passes) ==> AllResolved(Missed(receipts, cached), out.hashes)
    // Only non-strict mode gives up, after five passes; it never waits longer. It fails when a query does.
    ensures used <= |passes| && (out.Waiting? ==> used == |passes|)
    ensures WentThrough(passes[..used], Missed(receipts, cached), out, strict)
    // Giving up or not, nothing found is lost, and nothing is made up.
    ensures out.Found? ==> Answers(passes[..used], Missed(receipts, cached), cached, out.hashes)
    // One pass able to answer everything missed is enough to leave.
    ensures Unique(passes) ==>
              forall k :: 0 <= k < |passes| && AnswersAll(passes[k], Missed(receipts, cached)) ==>
                used <= k + 1 && !out.Waiting?
    // In particular no DataId key ever changes.
    ensures out.Found? ==> OnlyAnswers(Missed(receipts, cached), cached, out.hashes)
    // Sound cache hits and sound tables give sound answers.
    ensures out.Found? && OnChain(c, receipts) && c.Sound(cached) && SoundPasses(c, passes) ==> c.Sound(out.hashes)
  {
    var missed := Missed(receipts, cached);
    if missed == [] { return Found(cached, false), 0; }
    UnresolvedDistinct(receipts, (r: Receipt) => OwnKey(r) !in cached);
    MissedUnresolved(receipts, cached);
    out, used := Retry(missed, cached, strict, passes);
    assert used > 0 ==> forall k :: 0 <= k < used - 1 ==> passes[k] in Front(passes[..used]);
    assert forall k :: 0 <= k < used ==> passes[k] in passes[..used];
    if out.Found? && OnChain(c, receipts) && c.Sound(cached) && SoundPasses(c, passes) {
      AnswersSound(c, passes[..used], missed, cached, out.hashes);
    }
  }
}
