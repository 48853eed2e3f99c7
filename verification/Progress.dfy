/** Progress of strict mode: while blocks are stored one after another, the tables can answer all
    that the cache may miss, so the lookup loop ends, whatever was evicted. */
module Progress {
  import opened Types
  import opened Ancestry
  import opened Tables
  import opened ReceiptsCache
  import opened ParentLookup
  import opened Transactions
  import opened ChunkReceipts

  datatype LedgerBlock = LedgerBlock(
    hash: Hash, height: nat, txs: seq<Transaction>, receipts: seq<Receipt>, outcomes: seq<ExecutionOutcome>)

  type Ledger = seq<LedgerBlock>

  // ---- Causes come before effects --------------------------------------------------------------

  ghost predicate Converts(b: LedgerBlock, id: Hash) {
    exists tx :: tx in b.txs && tx.convertedInto == id
  }

  ghost predicate Includes(b: LedgerBlock, id: Hash) {
    exists r :: r in b.receipts && r.id == id && r.kind.ActionReceipt?
  }

  ghost predicate Produces(b: LedgerBlock, by_: Hash, id: Hash) {
    exists o :: o in b.outcomes && o.id == by_ && id in o.produced
  }

  ghost predicate NamesData(b: LedgerBlock, d: Hash) {
    exists r :: r in b.receipts && r.kind.ActionReceipt? && d in r.kind.outputs
  }

  /** A receipt that an action receipt of an earlier block produced before block `n`. */
  ghost predicate ProducedBefore(ledger: Ledger, n: nat, id: Hash)
    requires n <= |ledger|
  {
    exists i, j, q :: 0 <= i < n && 0 <= j < n && Produces(ledger[i], q, id) && Includes(ledger[j], q)
  }

  /** An action receipt is converted from a transaction of this or an earlier block, or produced in
      an earlier one; data arrives after the block of a receipt that names it. */
  ghost predicate CausedBefore(ledger: Ledger, n: nat, r: Receipt)
    requires n < |ledger|
  {
    match r.kind
    case ActionReceipt(_, _, _) =>
      (exists i :: 0 <= i <= n && Converts(ledger[i], r.id)) || ProducedBefore(ledger, n, r.id)
    case DataReceipt(d) => exists i :: 0 <= i < n && NamesData(ledger[i], d)
  }

  ghost predicate Causal(ledger: Ledger) {
    forall n, r :: 0 <= n < |ledger| && r in ledger[n].receipts ==> CausedBefore(ledger, n, r)
  }

  // ---- What the tables hold of a block ---------------------------------------------------------

  ghost predicate TransactionsStored(t: Tables, b: LedgerBlock) {
    AllPresent(t.transactions, b.txs, b.hash, b.height)
  }

  /** Every action receipt with its output data. */
  ghost predicate ReceiptsStored(t: Tables, b: LedgerBlock) {
    forall r :: r in b.receipts && r.kind.ActionReceipt? ==>
      r.id in t.receipts && forall d :: d in r.kind.outputs ==> (r.id, d) in t.outputData
  }

  ghost predicate OutcomesStored(t: Tables, b: LedgerBlock) {
    forall o, p :: o in b.outcomes && p in o.produced ==> (o.id, p) in t.outcomeReceipts
  }

  ghost predicate Stored(t: Tables, ledger: Ledger, n: nat)
    requires n <= |ledger|
  {
    forall i :: 0 <= i < n ==>
      TransactionsStored(t, ledger[i]) && ReceiptsStored(t, ledger[i]) && OutcomesStored(t, ledger[i])
  }

  // ---- The queries -----------------------------------------------------------------------------

  /** The answers are the rows of a join: one for each of the distinct `pairs`. */
  ghost predicate FromPairs(t: Tables, answers: seq<Answer>, pairs: seq<(Hash, Hash)>) {
    && |pairs| == |answers|
    && (forall i, j :: 0 <= i < j < |pairs| ==> pairs[i] != pairs[j])
    && (forall i :: 0 <= i < |pairs| ==>
          && pairs[i] in t.outcomeReceipts && pairs[i].0 in t.receipts
          && answers[i] == Answer(pairs[i].1, t.receipts[pairs[i].0].origin))
  }

  ghost predicate FromKeys(t: Tables, answers: seq<Answer>, keys: seq<TxHash>) {
    && |keys| == |answers|
    && (forall i, j :: 0 <= i < j < |keys| ==> keys[i] != keys[j])
    && (forall i :: 0 <= i < |keys| ==>
          keys[i] in t.transactions && answers[i] == Answer(t.transactions[keys[i]].convertedInto, keys[i]))
  }

  /** The tables at the moments of a pass's three queries. */
  datatype Moments = Moments(outputs: Tables, outcomes: Tables, transactions: Tables)

  /** A pass that reads the tables: every matching row once, and no other. */
  ghost predicate Reads(m: Moments, p: Pass) {
    && (forall a :: a in p.outputs <==> m.outputs.AnswersData(a))
    && p.outcomes.Some? && (forall a :: m.outcomes.AnswersOutcome(a) ==> a in p.outcomes.value)
    && (exists pairs :: FromPairs(m.outcomes, p.outcomes.value, pairs))
    && p.transactions.Some? && (forall a :: m.transactions.AnswersTransaction(a) ==> a in p.transactions.value)
    && (exists keys :: FromKeys(m.transactions, p.transactions.value, keys))
  }

  /** The tables only grow. */
  ghost predicate GrowsTo(before: Tables, after: Tables) {
    && Grows(before.transactions, after.transactions)
    && before.receipts.Keys <= after.receipts.Keys
    && before.outcomeReceipts <= after.outcomeReceipts
    && before.outputData <= after.outputData
  }

  /** The moments of a pass made after `before`, while the tables grow and stay those of the chain. */
  ghost predicate Since(c: Chain, ledger: Ledger, before: Tables, m: Moments) {
    && GrowsTo(before, m.outputs) && GrowsTo(m.outputs, m.outcomes) && GrowsTo(m.outcomes, m.transactions)
    && m.outcomes.Sound(c) && OfLedger(m.transactions, ledger)
  }

  /** Passes the loop makes, or would make if it went on, after `before`; whatever of the block they are
      for is stored by then. */
  ghost predicate Observed(c: Chain, ledger: Ledger, before: Tables, passes: seq<Pass>, seen: seq<Moments>) {
    && |seen| == |passes|
    && (forall i :: 0 <= i < |passes| ==> Since(c, ledger, before, seen[i]) && Reads(seen[i], passes[i]))
  }

  /** One of the passes comes after the block's own transactions, stored meanwhile, are there. */
  ghost predicate SeesTransactions(b: LedgerBlock, seen: seq<Moments>) {
    exists k :: 0 <= k < |seen| && TransactionsStored(seen[k].transactions, b)
  }

  // ---- At most one row answers -----------------------------------------------------------------

  /** Each stored transaction is one of its block, stored as its block's storing leaves it. */
  ghost predicate OfLedger(t: Tables, ledger: Ledger) {
    && (forall k :: k in t.transactions ==> exists n :: 0 <= n < |ledger| && ledger[n].hash == t.transactions[k].block)
    && (forall n :: 0 <= n < |ledger| ==>
          Consistent(t.transactions, ledger[n].txs, ledger[n].hash, ledger[n].height))
  }

  /** Blocks have their own hashes, transactions within a block differ, and no two blocks convert into
      one receipt. */
  ghost predicate ConvertedOnce(ledger: Ledger) {
    && (forall n :: 0 <= n < |ledger| ==> DistinctTransactions(ledger[n].txs))
    && (forall m, n, id ::
          0 <= m < n < |ledger| && Converts(ledger[m], id) && Converts(ledger[n], id) ==> false)
  }

  lemma KeyOfReceipt(t: Tables, ledger: Ledger, k: TxHash, l: TxHash)
    requires OfLedger(t, ledger) && ConvertedOnce(ledger)
    requires k in t.transactions && l in t.transactions
    requires t.transactions[k].convertedInto == t.transactions[l].convertedInto
    ensures k == l
  {
    var m :| 0 <= m < |ledger| && ledger[m].hash == t.transactions[k].block;
    var n :| 0 <= n < |ledger| && ledger[n].hash == t.transactions[l].block;
    var tx := Transaction(k.hash, t.transactions[k].convertedInto);
    var other := Transaction(l.hash, t.transactions[l].convertedInto);
    assert Consistent(t.transactions, ledger[m].txs, ledger[m].hash, ledger[m].height);
    assert Consistent(t.transactions, ledger[n].txs, ledger[n].hash, ledger[n].height);
    assert tx in ledger[m].txs && other in ledger[n].txs;
    assert Converts(ledger[m], tx.convertedInto) && Converts(ledger[n], tx.convertedInto);
    assert m == n;
    SameHash(ledger[n].txs, tx, other);
  }

  /** So the row-count shortcut may be trusted: no receipt has two rows in either table. */
  lemma ReadsUnique(c: Chain, m: Moments, ledger: Ledger, p: Pass)
    requires m.outcomes.Sound(c) && OfLedger(m.transactions, ledger) && ConvertedOnce(ledger) && Reads(m, p)
    ensures UniqueRows(p) && !Broken(p)
  {
    var pairs :| FromPairs(m.outcomes, p.outcomes.value, pairs);
    var keys :| FromKeys(m.transactions, p.transactions.value, keys);
    OutcomesUnique(c, m.outcomes, p.outcomes.value, pairs);
    TransactionsUnique(m.transactions, ledger, p.transactions.value, keys);
  }

  lemma TransactionsUnique(t: Tables, ledger: Ledger, answers: seq<Answer>, keys: seq<TxHash>)
    requires OfLedger(t, ledger) && ConvertedOnce(ledger) && FromKeys(t, answers, keys)
    ensures UniqueAnswers(answers)
  {
    forall i, j | 0 <= i < j < |answers| ensures answers[i].id != answers[j].id {
      if answers[i].id == answers[j].id { KeyOfReceipt(t, ledger, keys[i], keys[j]); }
    }
  }

  lemma OutcomesUnique(c: Chain, t: Tables, answers: seq<Answer>, pairs: seq<(Hash, Hash)>)
    requires t.Sound(c) && FromPairs(t, answers, pairs)
    ensures UniqueAnswers(answers)
  {
    forall i, j | 0 <= i < j < |answers| ensures answers[i].id != answers[j].id {
      assert (pairs[i].0, pairs[i].1) in t.outcomeReceipts && (pairs[j].0, pairs[j].1) in t.outcomeReceipts;
      assert pairs[i] != pairs[j];
    }
  }

  // ---- The next block can be answered ----------------------------------------------------------

  lemma ConvertedAnswer(t: Tables, b: LedgerBlock, id: Hash) returns (a: Answer)
    requires TransactionsStored(t, b) && Converts(b, id)
    ensures t.AnswersTransaction(a) && a.id == id
  {
    var tx :| tx in b.txs && tx.convertedInto == id;
    assert Present(t.transactions, tx, b.hash, b.height);
    var plain := TxHash(tx.hash, None);
    a := Answer(id, if Holds(t.transactions, plain, tx, b.hash) then plain else TxHash(tx.hash, Some(b.height)));
  }

  lemma ProducedAnswer(t: Tables, ledger: Ledger, n: nat, id: Hash) returns (a: Answer)
    requires n <= |ledger| && Stored(t, ledger, n) && ProducedBefore(ledger, n, id)
    ensures t.AnswersOutcome(a) && a.id == id
  {
    var i, j, q :| 0 <= i < n && 0 <= j < n && Produces(ledger[i], q, id) && Includes(ledger[j], q);
    assert OutcomesStored(t, ledger[i]) && ReceiptsStored(t, ledger[j]);
    assert (q, id) in t.outcomeReceipts && q in t.receipts;
    a := Answer(id, t.receipts[q].origin);
  }

  lemma NamedAnswer(t: Tables, b: LedgerBlock, d: Hash) returns (a: Answer)
    requires ReceiptsStored(t, b) && NamesData(b, d)
    ensures t.AnswersData(a) && a.id == d
  {
    var r :| r in b.receipts && r.kind.ActionReceipt? && d in r.kind.outputs;
    a := Answer(d, t.receipts[r.id].origin);
  }

  lemma StoredStays(before: Tables, after: Tables, ledger: Ledger, n: nat)
    requires n <= |ledger| && Stored(before, ledger, n) && GrowsTo(before, after)
    ensures Stored(after, ledger, n)
  {
    forall i | 0 <= i < n
      ensures TransactionsStored(after, ledger[i]) && ReceiptsStored(after, ledger[i])
      ensures OutcomesStored(after, ledger[i])
    {
      var b := ledger[i];
      assert TransactionsStored(before, b) && ReceiptsStored(before, b) && OutcomesStored(before, b);
      forall tx | tx in b.txs ensures Present(after.transactions, tx, b.hash, b.height) {
        assert Present(before.transactions, tx, b.hash, b.height);
      }
    }
  }

  lemma ReceiptAnswered(m: Moments, ledger: Ledger, n: nat, p: Pass, r: Receipt)
    requires n < |ledger| && CausedBefore(ledger, n, r) && Reads(m, p)
    requires Stored(m.outputs, ledger, n) && Stored(m.outcomes, ledger, n) && Stored(m.transactions, ledger, n)
    requires TransactionsStored(m.transactions, ledger[n])
    ensures CanAnswer(p, r)
  {
    match r.kind
    case DataReceipt(d) =>
      var i :| 0 <= i < n && NamesData(ledger[i], d);
      var a := NamedAnswer(m.outputs, ledger[i], d);
      assert a in p.outputs;
    case ActionReceipt(_, _, _) =>
      if i :| 0 <= i <= n && Converts(ledger[i], r.id) {
        assert i == n || i < n;
        var a := ConvertedAnswer(m.transactions, ledger[i], r.id);
        assert a in p.transactions.value;
      } else {
        var a := ProducedAnswer(m.outcomes, ledger, n, r.id);
        assert a in p.outcomes.value;
      }
  }

  /** Once the earlier blocks are stored, and at its last query the transactions of this one, a single
      pass answers everything the block includes. */
  lemma NextBlockAnswered(
    c: Chain, before: Tables, m: Moments, ledger: Ledger, n: nat, p: Pass, chunk: seq<Receipt>)
    requires n < |ledger| && Causal(ledger) && forall r :: r in chunk ==> r in ledger[n].receipts
    requires Stored(before, ledger, n) && Since(c, ledger, before, m) && Reads(m, p)
    requires TransactionsStored(m.transactions, ledger[n])
    ensures AnswersAll(p, chunk)
  {
    StoredStays(before, m.outputs, ledger, n);
    StoredStays(m.outputs, m.outcomes, ledger, n);
    StoredStays(m.outcomes, m.transactions, ledger, n);
    forall r | r in chunk ensures CanAnswer(p, r) { ReceiptAnswered(m, ledger, n, p, r); }
  }

  // ---- So its chunks are stored ----------------------------------------------------------------

  /** The storing of one chunk: the cache it found, the passes with the tables they read, and how it
      ended. */
  datatype ChunkRun = ChunkRun(
    chunk: seq<Receipt>, cache: Cache, passes: seq<Pass>, seen: seq<Moments>, used: nat,
    out: Outcome)

  /** A strict run for a chunk of block `n`, begun after `before`; StoreChunkReceipts ensures `Ends`. */
  ghost predicate RunsChunk(c: Chain, ledger: Ledger, n: nat, before: Tables, run: ChunkRun)
    requires n < |ledger|
  {
    && DistinctIds(run.chunk) && (forall r :: r in run.chunk ==> r in ledger[n].receipts)
    && Observed(c, ledger, before, run.passes, run.seen) && SeesTransactions(ledger[n], run.seen)
    && Ends(run.chunk, run.cache, true, run.passes, run.used, run.out)
  }

  /** The chunk is stored and every action receipt of it known. */
  ghost predicate AllActionsStored(chunk: seq<Receipt>, out: Outcome) {
    && out.Stored?
    && (forall r :: r in chunk && r.kind.ActionReceipt? ==> OwnKey(r) in out.hashes && r.id !in out.skipped)
  }

  lemma PassesUnique(c: Chain, ledger: Ledger, before: Tables, passes: seq<Pass>, seen: seq<Moments>)
    requires ConvertedOnce(ledger) && Observed(c, ledger, before, passes, seen)
    ensures Unique(passes) && !AnyBroken(passes)
  {
    forall p | p in passes ensures UniqueRows(p) && !Broken(p) {
      var i :| 0 <= i < |passes| && passes[i] == p;
      assert Since(c, ledger, before, seen[i]);
      ReadsUnique(c, seen[i], ledger, p);
    }
  }

  /** Strict mode ends, whatever the cache holds, and skips no action receipt. */
  lemma ChunkEnds(c: Chain, ledger: Ledger, n: nat, before: Tables, run: ChunkRun)
    requires n < |ledger| && Causal(ledger) && ConvertedOnce(ledger)
    requires Stored(before, ledger, n) && RunsChunk(c, ledger, n, before, run)
    ensures AllActionsStored(run.chunk, run.out)
  {
    PassesUnique(c, ledger, before, run.passes, run.seen);
    var k :| 0 <= k < |run.seen| && TransactionsStored(run.seen[k].transactions, ledger[n]);
    assert Since(c, ledger, before, run.seen[k]);
    NextBlockAnswered(c, before, run.seen[k], ledger, n, run.passes[k], run.chunk);
    assert run.passes[k] in run.passes;
    assert AnswersAll(run.passes[k], Missed(run.chunk, run.cache.Hits(run.chunk)));
    SkippedAreUnknown(run.chunk, run.out.hashes);
    forall r | r in run.chunk && r.kind.ActionReceipt? ensures OwnKey(r) in run.out.hashes {
      KnownAfterLookup(run.chunk, run.cache, run.out.hashes, r);
    }
  }

  /** The same of the program: passes that come before the block's transactions are stored do no harm,
      and one after them is enough. */
  method StoreNextChunk(ghost c: Chain, cache: SharedCache, ghost before: Tables, ghost ledger: Ledger, ghost n: nat,
      passes: seq<Pass>, ghost seen: seq<Moments>, chunk: seq<Receipt>)
    returns (out: Outcome, ghost used: nat)
    requires n < |ledger| && Causal(ledger) && ConvertedOnce(ledger) && DistinctIds(chunk)
    requires forall r :: r in chunk ==> r in ledger[n].receipts
    requires Stored(before, ledger, n) && Observed(c, ledger, before, passes, seen) && SeesTransactions(ledger[n], seen)
    modifies cache
    ensures AllActionsStored(chunk, out)
    ensures RunsChunk(c, ledger, n, before, ChunkRun(chunk, old(cache.State()), passes, seen, used, out))
  {
    ghost var found := cache.State();
    ghost var second;
    out, second, used := StoreChunkReceipts(c, cache, chunk, true, passes);
    ChunkEnds(c, ledger, n, before, ChunkRun(chunk, found, passes, seen, used, out));
  }

  // ---- And the next block is stored ------------------------------------------------------------

  /** The rows and child rows of a stored chunk have been inserted. */
  ghost predicate Inserted(t: Tables, out: Outcome)
    requires out.Stored?
  {
    && (forall row :: row in out.rows ==> row.id in t.receipts)
    && (forall o :: o in out.children.outputs ==> o in t.outputData)
  }

  ghost predicate OutcomesInserted(t: Tables, outcomes: seq<ExecutionOutcome>) {
    forall row :: row in OutcomeRows(outcomes) ==> (row.executed, row.produced) in t.outcomeReceipts
  }

  /** The storing of a block: its chunks, and the tables it leaves. */
  datatype BlockRun = BlockRun(chunks: seq<ChunkRun>, after: Tables)

  ghost predicate ChunksStored(run: BlockRun) {
    forall i :: 0 <= i < |run.chunks| ==> run.chunks[i].out.Stored?
  }

  /** A strict run of block `n` that finds the tables as `before`. Once all its chunks are through, its
      transactions are there, as StoreTransactions ensures, and its rows have been inserted. */
  ghost predicate RunsBlock(c: Chain, ledger: Ledger, n: nat, before: Tables, run: BlockRun)
    requires n < |ledger|
  {
    && (forall r :: r in ledger[n].receipts ==> exists i :: 0 <= i < |run.chunks| && r in run.chunks[i].chunk)
    && (forall i :: 0 <= i < |run.chunks| ==> RunsChunk(c, ledger, n, before, run.chunks[i]))
    && (ChunksStored(run) ==>
          && GrowsTo(before, run.after) && TransactionsStored(run.after, ledger[n])
          && (forall i :: 0 <= i < |run.chunks| ==> Inserted(run.after, run.chunks[i].out))
          && OutcomesInserted(run.after, ledger[n].outcomes))
  }

  ghost predicate RowsBuilt(run: ChunkRun) {
    && run.out.Stored? && run.out.rows == StoredRows(run.chunk, run.out.hashes)
    && run.out.children == ChildrenOf(Known(run.chunk, run.out.hashes))
  }

  lemma ReceiptStored(t: Tables, chunk: seq<Receipt>, out: Outcome, r: Receipt)
    requires out.Stored? && Inserted(t, out)
    requires out.rows == StoredRows(chunk, out.hashes) && out.children == ChildrenOf(Known(chunk, out.hashes))
    requires r in chunk && r.kind.ActionReceipt? && OwnKey(r) in out.hashes
    ensures r.id in t.receipts && forall d :: d in r.kind.outputs ==> (r.id, d) in t.outputData
  {
    StoredRowsExact(chunk, out.hashes);
    var i :| 0 <= i < |chunk| && chunk[i] == r;
    ChildrenOfStored(chunk, out.hashes);
    assert IsStored(chunk, out.hashes, r);
    forall d | d in r.kind.outputs ensures (r.id, d) in t.outputData {
      var k :| 0 <= k < |r.kind.outputs| && r.kind.outputs[k] == d;
      assert IsOutputRow(r, (r.id, d));
    }
  }

  ghost predicate AllActionsOf(run: BlockRun) {
    forall i :: 0 <= i < |run.chunks| ==> AllActionsStored(run.chunks[i].chunk, run.chunks[i].out)
  }

  lemma BlockRows(b: LedgerBlock, run: BlockRun)
    requires forall r :: r in b.receipts ==> exists i :: 0 <= i < |run.chunks| && r in run.chunks[i].chunk
    requires AllActionsOf(run)
    requires forall i :: 0 <= i < |run.chunks| ==> RowsBuilt(run.chunks[i]) && Inserted(run.after, run.chunks[i].out)
    requires OutcomesInserted(run.after, b.outcomes)
    ensures ReceiptsStored(run.after, b) && OutcomesStored(run.after, b)
  {
    forall r | r in b.receipts && r.kind.ActionReceipt?
      ensures r.id in run.after.receipts && forall d :: d in r.kind.outputs ==> (r.id, d) in run.after.outputData
    {
      var i :| 0 <= i < |run.chunks| && r in run.chunks[i].chunk;
      assert AllActionsStored(run.chunks[i].chunk, run.chunks[i].out);
      ReceiptStored(run.after, run.chunks[i].chunk, run.chunks[i].out, r);
    }
    forall o, p | o in b.outcomes && p in o.produced ensures (o.id, p) in run.after.outcomeReceipts {
      ProducedHasRow(b.outcomes, o, p);
    }
  }

  /** Running the next block stores all its action receipts and makes it one of the blocks stored. */
  lemma BlockStored(c: Chain, ledger: Ledger, n: nat, before: Tables, run: BlockRun)
    requires n < |ledger| && Causal(ledger) && ConvertedOnce(ledger)
    requires Stored(before, ledger, n) && RunsBlock(c, ledger, n, before, run)
    ensures AllActionsOf(run) && Stored(run.after, ledger, n + 1)
  {
    forall i | 0 <= i < |run.chunks| ensures AllActionsStored(run.chunks[i].chunk, run.chunks[i].out) {
      ChunkEnds(c, ledger, n, before, run.chunks[i]);
    }
    assert ChunksStored(run);
    StoredStays(before, run.after, ledger, n);
    BlockRows(ledger[n], run);
  }

  function Ending(start: Tables, history: seq<BlockRun>): Tables {
    if history == [] then start else Last(history).after
  }

  /** Blocks run one after another, from any tables. */
  ghost predicate InOrder(c: Chain, ledger: Ledger, start: Tables, history: seq<BlockRun>) {
    history != [] ==>
      && InOrder(c, ledger, start, Front(history)) && |history| <= |ledger|
      && RunsBlock(c, ledger, |history| - 1, Ending(start, Front(history)), Last(history))
  }

  ghost predicate AllStored(ledger: Ledger, start: Tables, history: seq<BlockRun>) {
    && |history| <= |ledger| && Stored(Ending(start, history), ledger, |history|)
    && (forall run :: run in history ==> AllActionsOf(run))
  }

  lemma AllStoredAgain(ledger: Ledger, start: Tables, history: seq<BlockRun>)
    requires history != [] && AllStored(ledger, start, Front(history))
    requires AllActionsOf(Last(history)) && |history| <= |ledger| && Stored(Last(history).after, ledger, |history|)
    ensures AllStored(ledger, start, history)
  {
    assert history == Front(history) + [Last(history)];
  }

  /** Block after block, strict mode neither hangs nor skips, whatever the cache held or forgot: every
      lookup ends, every action receipt gets its row, with all its output data. */
  lemma {:induction false} InOrderStoresAll(c: Chain, ledger: Ledger, start: Tables, history: seq<BlockRun>)
    requires Causal(ledger) && ConvertedOnce(ledger) && InOrder(c, ledger, start, history)
    ensures AllStored(ledger, start, history)
  {
    if history != [] {
      InOrderStoresAll(c, ledger, start, Front(history));
      BlockStored(c, ledger, |history| - 1, Ending(start, Front(history)), Last(history));
      AllStoredAgain(ledger, start, history);
    }
  }
}
