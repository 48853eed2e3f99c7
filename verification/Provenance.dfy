/** The whole protocol as a step system: every stay under the cache lock and every single insert
    or query is one atomic step, and a run is any sequence of steps of any number of blocks. */
module Provenance {
  import opened Types
  import opened Ancestry
  import opened Tables
  import opened ReceiptsCache
  import opened ParentLookup
  import opened Transactions
  import opened ChunkReceipts

  /** `found` holds the answers of the lookups in flight, by task. */
  datatype State = State(cache: Cache, tables: Tables, found: map<nat, HashMap>) {
    function Of(task: nat): HashMap {
      if task in found then found[task] else map[]
    }

    ghost predicate Sound(c: Chain) {
      && c.Sound(cache.entries)
      && tables.Sound(c)
      && (forall task :: task in found ==> c.Sound(found[task]))
    }
  }

  datatype Step =
    | CacheTransactions(txs: seq<Transaction>, suffix: Option<nat>)
    | InsertTransactions(txs: seq<Transaction>, suffix: Option<nat>, block: Hash)
    | LookUp(task: nat, receipts: seq<Receipt>)
    | AnswerData(task: nat, receipts: seq<Receipt>, answers: seq<Answer>)
    | AnswerActions(task: nat, answers: seq<Answer>)
    | CacheOutputs(task: nat, receipts: seq<Receipt>)
    | InsertReceipts(task: nat, receipts: seq<Receipt>)
    | InsertOutputData(receipts: seq<Receipt>)
    | CacheOutcomes(outcomes: seq<ExecutionOutcome>)
    | InsertOutcomeReceipts(outcomes: seq<ExecutionOutcome>)

  const START := State(Cache(map[], 0), Tables(map[], map[], {}, {}), map[])

  function InsertRows(table: map<Hash, ReceiptRow>, rows: seq<ReceiptRow>): map<Hash, ReceiptRow> {
    if rows == [] then table
    else
      var t := InsertRows(table, Front(rows));
      if Last(rows).id in t then t else t[Last(rows).id := Last(rows)]
  }

  function Apply(evict: Eviction, s: State, step: Step): State {
    var t := s.tables;
    match step
    case CacheTransactions(txs, suffix) => s.(cache := s.cache.WithTransactions(evict, txs, suffix))
    case InsertTransactions(txs, suffix, block) =>
      s.(tables := t.(transactions := Insert(t.transactions, RowsFor(txs, suffix, block))))
    case LookUp(task, receipts) =>
      s.(cache := s.cache.AfterLookup(receipts), found := s.found[task := s.cache.Hits(receipts)])
    case AnswerData(task, receipts, answers) =>
      s.(found := s.found[task := Extend(s.Of(task), OutputRows(answers, receipts))])
    case AnswerActions(task, answers) =>
      s.(found := s.found[task := Extend(s.Of(task), answers)])
    case CacheOutputs(task, receipts) =>
      s.(cache := s.cache.WithOutputs(evict, receipts, s.Of(task)))
    case InsertReceipts(task, receipts) =>
      s.(tables := t.(receipts := InsertRows(t.receipts, StoredRows(receipts, s.Of(task)))))
    case InsertOutputData(receipts) =>
      s.(tables := t.(outputData := t.outputData + set o | o in FlatMap(receipts, OutputRowsOf)))
    case CacheOutcomes(outcomes) => s.(cache := s.cache.WithOutcomes(evict, outcomes))
    case InsertOutcomeReceipts(outcomes) =>
      var pairs := set r | r in OutcomeRows(outcomes) :: (r.executed, r.produced);
      s.(tables := t.(outcomeReceipts := t.outcomeReceipts + pairs))
  }

  ghost predicate TransactionsOnChain(c: Chain, txs: seq<Transaction>) {
    forall tx :: tx in txs ==> tx.convertedInto in c.convertedFrom && c.convertedFrom[tx.convertedInto] == tx.hash
  }

  ghost predicate OutcomesOnChain(c: Chain, outcomes: seq<ExecutionOutcome>) {
    forall o, p :: o in outcomes && p in o.produced ==> p in c.producedBy && c.producedBy[p] == o.id
  }

  /** A step handles data of the chain, and a query answers only with rows of the tables. */
  ghost predicate Valid(c: Chain, s: State, step: Step) {
    match step
    case CacheTransactions(txs, _) => TransactionsOnChain(c, txs)
    case InsertTransactions(txs, _, _) => TransactionsOnChain(c, txs)
    case LookUp(_, receipts) => OnChain(c, receipts)
    case AnswerData(_, receipts, answers) =>
      OnChain(c, receipts) && forall a :: a in answers ==> s.tables.AnswersData(a)
    case AnswerActions(_, answers) =>
      forall a :: a in answers ==> s.tables.AnswersOutcome(a) || s.tables.AnswersTransaction(a)
    case CacheOutputs(_, receipts) => OnChain(c, receipts)
    case InsertReceipts(_, receipts) => OnChain(c, receipts)
    case InsertOutputData(receipts) => OnChain(c, receipts)
    case CacheOutcomes(outcomes) => OutcomesOnChain(c, outcomes)
    case InsertOutcomeReceipts(outcomes) => OutcomesOnChain(c, outcomes)
  }

  function Run(evict: Eviction, steps: seq<Step>): State {
    if steps == [] then START else Apply(evict, Run(evict, Front(steps)), Last(steps))
  }

  /** A run over the chain. Tasks may be interleaved at will: the order of steps is not
      restricted, so every schedule the program allows is one of these runs. */
  ghost predicate RunOf(c: Chain, evict: Eviction, steps: seq<Step>) {
    steps != [] ==> RunOf(c, evict, Front(steps)) && Valid(c, Run(evict, Front(steps)), Last(steps))
  }

  lemma {:induction false} SetAllSound(c: Chain, evict: Eviction, cache: Cache, keys: seq<ReceiptOrDataId>,
      value: TxHash)
    requires c.Sound(cache.entries) && forall key :: key in keys ==> c.Originates(key, value.hash)
    ensures c.Sound(cache.SetAll(evict, keys, value).entries)
  {
    if keys != [] {
      assert Last(keys) in keys && forall key :: key in Front(keys) ==> key in keys;
      SetAllSound(c, evict, cache, Front(keys), value);
    }
  }

  lemma {:induction false} WithTransactionsSound(c: Chain, evict: Eviction, cache: Cache, txs: seq<Transaction>,
      suffix: Option<nat>)
    requires c.WellFormed() && c.Sound(cache.entries) && TransactionsOnChain(c, txs)
    ensures c.Sound(cache.WithTransactions(evict, txs, suffix).entries)
  {
    if txs != [] {
      var tx := Last(txs);
      assert tx in txs && forall x :: x in Front(txs) ==> x in txs;
      WithTransactionsSound(c, evict, cache, Front(txs), suffix);
      assert c.RootAt(tx.convertedInto, tx.hash, 0);
    }
  }

  lemma WithOutcomeSound(c: Chain, evict: Eviction, cache: Cache, o: ExecutionOutcome)
    requires c.WellFormed() && c.Sound(cache.entries)
    requires forall p :: p in o.produced ==> p in c.producedBy && c.producedBy[p] == o.id
    ensures c.Sound(cache.WithOutcome(evict, o).entries)
  {
    var key := ReceiptId(o.id);
    if key in cache.entries {
      var keys := AsReceiptIds(o.produced);
      forall k | k in keys ensures c.Originates(k, cache.entries[key].hash) {
        assert k.id in o.produced;
        ChildTakesParentRoot(c, k.id, cache.entries[key].hash);
      }
      SetAllSound(c, evict, cache.Remove(key), keys, cache.entries[key]);
    }
  }

  lemma {:induction false} WithOutcomesSound(c: Chain, evict: Eviction, cache: Cache, outcomes: seq<ExecutionOutcome>)
    requires c.WellFormed() && c.Sound(cache.entries) && OutcomesOnChain(c, outcomes)
    ensures c.Sound(cache.WithOutcomes(evict, outcomes).entries)
  {
    if outcomes != [] {
      assert Last(outcomes) in outcomes && forall x :: x in Front(outcomes) ==> x in outcomes;
      WithOutcomesSound(c, evict, cache, Front(outcomes));
      WithOutcomeSound(c, evict, cache.WithOutcomes(evict, Front(outcomes)), Last(outcomes));
    }
  }

  lemma {:induction false} WithOutputsSound(c: Chain, evict: Eviction, cache: Cache, receipts: seq<Receipt>,
      found: HashMap)
    requires c.WellFormed() && c.Sound(cache.entries) && c.Sound(found) && OnChain(c, receipts)
    ensures c.Sound(cache.WithOutputs(evict, receipts, found).entries)
  {
    if receipts != [] {
      var r := Last(receipts);
      assert r in receipts && forall x :: x in Front(receipts) ==> x in receipts;
      WithOutputsSound(c, evict, cache, Front(receipts), found);
      if r.kind.ActionReceipt? && ReceiptId(r.id) in found {
        var keys := AsDataIds(r.kind.outputs);
        forall k | k in keys ensures c.Originates(k, found[ReceiptId(r.id)].hash) {
          assert (r.id, k.id) in c.names && c.Originates(ReceiptId(r.id), found[ReceiptId(r.id)].hash);
        }
        SetAllSound(c, evict, cache.WithOutputs(evict, Front(receipts), found), keys, found[ReceiptId(r.id)]);
      }
    }
  }

  lemma {:induction false} InsertRowsHolds(table: map<Hash, ReceiptRow>, rows: seq<ReceiptRow>)
    ensures forall r :: r in InsertRows(table, rows) ==>
              (r in table && InsertRows(table, rows)[r] == table[r])
                  || (InsertRows(table, rows)[r] in rows && InsertRows(table, rows)[r].id == r)
    ensures forall r :: r in table ==> r in InsertRows(table, rows) && InsertRows(table, rows)[r] == table[r]
    ensures forall row :: row in rows ==> row.id in InsertRows(table, rows)
  {
    if rows != [] {
      assert Last(rows) in rows && forall x :: x in Front(rows) ==> x in rows;
      InsertRowsHolds(table, Front(rows));
    }
  }

  lemma InsertTransactionsSound(c: Chain, t: Tables, txs: seq<Transaction>, suffix: Option<nat>, block: Hash)
    requires t.Sound(c) && TransactionsOnChain(c, txs)
    ensures t.(transactions := Insert(t.transactions, RowsFor(txs, suffix, block))).Sound(c)
  {
    var rows := RowsFor(txs, suffix, block);
    InsertAdds(t.transactions, rows);
    forall k | k in Insert(t.transactions, rows) && k !in t.transactions
      ensures var r := Insert(t.transactions, rows)[k].convertedInto;
              r in c.convertedFrom && c.convertedFrom[r] == k.hash
    {
      var i :| 0 <= i < |rows| && rows[i] == (k, Insert(t.transactions, rows)[k]);
      assert txs[i] in txs;
    }
  }

  lemma InsertOutputDataSound(c: Chain, t: Tables, receipts: seq<Receipt>)
    requires t.Sound(c) && OnChain(c, receipts)
    ensures t.(outputData := t.outputData + set o | o in FlatMap(receipts, OutputRowsOf)).Sound(c)
  {
    forall o | o in FlatMap(receipts, OutputRowsOf) ensures o in c.names {
      FlatMapHolds(receipts, OutputRowsOf, o);
    }
  }

  lemma {:induction false} OutcomeRowsOnChain(c: Chain, outcomes: seq<ExecutionOutcome>)
    requires OutcomesOnChain(c, outcomes)
    ensures forall r :: r in OutcomeRows(outcomes) ==>
              r.produced in c.producedBy && c.producedBy[r.produced] == r.executed
  {
    if outcomes != [] {
      assert Last(outcomes) in outcomes && forall x :: x in Front(outcomes) ==> x in outcomes;
      OutcomeRowsOnChain(c, Front(outcomes));
    }
  }

  lemma DataAnswersSound(c: Chain, t: Tables, receipts: seq<Receipt>, answers: seq<Answer>)
    requires c.WellFormed() && t.Sound(c) && OnChain(c, receipts) && forall a :: a in answers ==> t.AnswersData(a)
    ensures SoundAnswers(c, OutputRows(answers, receipts))
  {
    forall a | a in answers ensures c.Originates(DataId(a.id), a.origin.hash) { DataAnswerSound(t, c, a); }
    OutputAnswersSound(c, answers, receipts);
  }

  lemma ActionAnswersSound(c: Chain, t: Tables, answers: seq<Answer>)
    requires c.WellFormed() && t.Sound(c) && forall a :: a in answers ==> t.AnswersOutcome(a) || t.AnswersTransaction(a)
    ensures SoundAnswers(c, answers)
  {
    forall a | a in answers ensures c.Originates(ReceiptId(a.id), a.origin.hash) {
      if t.AnswersOutcome(a) { OutcomeAnswerSound(t, c, a); } else { TransactionAnswerSound(t, c, a); }
    }
  }

  /** A step is effective: inserts leave the rows they are given in the tables, the lookup region finds
      what is cached, answers are kept for the task, and the other regions do to the cache what they do
      alone. */
  ghost predicate Effective(evict: Eviction, s: State, step: Step, after: State) {
    match step
    case CacheTransactions(txs, suffix) => after == s.(cache := s.cache.WithTransactions(evict, txs, suffix))
    case CacheOutputs(task, receipts) => after == s.(cache := s.cache.WithOutputs(evict, receipts, s.Of(task)))
    case CacheOutcomes(outcomes) => after == s.(cache := s.cache.WithOutcomes(evict, outcomes))
    case InsertTransactions(txs, suffix, _) =>
      forall tx :: tx in txs ==> TxHash(tx.hash, suffix) in after.tables.transactions
    case LookUp(task, receipts) =>
      && after.cache == s.cache.AfterLookup(receipts)
      && forall r :: r in receipts && OwnKey(r) in s.cache.entries ==>
           OwnKey(r) in after.Of(task) && after.Of(task)[OwnKey(r)] == s.cache.entries[OwnKey(r)]
    case AnswerData(task, receipts, answers) =>
      forall r :: r in receipts && r.kind.DataReceipt? && HasAnswer(answers, r.kind.dataId) ==>
          ReceiptId(r.id) in after.Of(task)
    case AnswerActions(task, answers) => forall a :: a in answers ==> ReceiptId(a.id) in after.Of(task)
    case InsertReceipts(task, receipts) =>
      forall r :: r in receipts && OwnKey(r) in s.Of(task) ==> r.id in after.tables.receipts
    case InsertOutputData(receipts) =>
      forall r, d :: r in receipts && r.kind.ActionReceipt? && d in r.kind.outputs ==>
          (r.id, d) in after.tables.outputData
    case InsertOutcomeReceipts(outcomes) =>
      forall o, p :: o in outcomes && p in o.produced ==> (o.id, p) in after.tables.outcomeReceipts
  }

  lemma StepEffective(evict: Eviction, s: State, step: Step)
    ensures Effective(evict, s, step, Apply(evict, s, step))
  {
    match step
    case InsertTransactions(txs, suffix, block) => InsertedKeys(s.tables.transactions, txs, suffix, block);
    case LookUp(task, receipts) =>
      HitsAreCacheEntries(s.cache, receipts);
      assert forall r :: r in receipts ==> Asked(receipts, OwnKey(r));
    case AnswerData(task, receipts, answers) =>
      OutputAnswers(answers, receipts);
      ExtendHolds(s.Of(task), OutputRows(answers, receipts));
    case AnswerActions(task, answers) =>
      ExtendHolds(s.Of(task), answers);
      assert forall a :: a in answers ==> HasAnswer(answers, a.id);
    case InsertReceipts(task, receipts) => InsertedIds(s.tables.receipts, receipts, s.Of(task));
    case InsertOutputData(receipts) => InsertedOutputs(receipts);
    case InsertOutcomeReceipts(outcomes) => InsertedOutcomes(outcomes);
    case _ =>
  }

  lemma InsertedKeys(table: Table, txs: seq<Transaction>, suffix: Option<nat>, block: Hash)
    ensures forall tx :: tx in txs ==> TxHash(tx.hash, suffix) in Insert(table, RowsFor(txs, suffix, block))
  {
    InsertAdds(table, RowsFor(txs, suffix, block));
    forall tx | tx in txs ensures TxHash(tx.hash, suffix) in Insert(table, RowsFor(txs, suffix, block)) {
      var i :| 0 <= i < |txs| && txs[i] == tx;
      assert RowsFor(txs, suffix, block)[i].0 == TxHash(tx.hash, suffix);
    }
  }

  lemma InsertedIds(table: map<Hash, ReceiptRow>, receipts: seq<Receipt>, found: HashMap)
    ensures forall r :: r in receipts && OwnKey(r) in found ==> r.id in InsertRows(table, StoredRows(receipts, found))
  {
    StoredRowsExact(receipts, found);
    InsertRowsHolds(table, StoredRows(receipts, found));
    forall r | r in receipts && OwnKey(r) in found ensures r.id in InsertRows(table, StoredRows(receipts, found)) {
      var i :| 0 <= i < |receipts| && receipts[i] == r;
      assert ReceiptRow(r.id, i, found[OwnKey(r)]) in StoredRows(receipts, found);
    }
  }

  lemma InsertedOutputs(receipts: seq<Receipt>)
    ensures forall r, d :: r in receipts && r.kind.ActionReceipt? && d in r.kind.outputs ==>
              (r.id, d) in FlatMap(receipts, OutputRowsOf)
  {
    forall r, d | r in receipts && r.kind.ActionReceipt? && d in r.kind.outputs
      ensures (r.id, d) in FlatMap(receipts, OutputRowsOf)
    {
      var i :| 0 <= i < |r.kind.outputs| && r.kind.outputs[i] == d;
      assert OutputRowsOf(r)[i] == (r.id, d);
      FlatMapHolds(receipts, OutputRowsOf, (r.id, d));
    }
  }

  lemma InsertedOutcomes(outcomes: seq<ExecutionOutcome>)
    ensures forall o, p :: o in outcomes && p in o.produced ==>
              exists row :: row in OutcomeRows(outcomes) && row.executed == o.id && row.produced == p
  {
    forall o, p | o in outcomes && p in o.produced
      ensures exists row :: row in OutcomeRows(outcomes) && row.executed == o.id && row.produced == p
    {
      ProducedHasRow(outcomes, o, p);
    }
  }

  /** One atomic step, under any eviction, keeps every entry, answer and row true to its root. */
  lemma StepSound(c: Chain, evict: Eviction, s: State, step: Step)
    requires c.WellFormed() && s.Sound(c) && Valid(c, s, step)
    ensures Apply(evict, s, step).Sound(c)
  {
    match step
    case CacheTransactions(txs, suffix) => WithTransactionsSound(c, evict, s.cache, txs, suffix);
    case InsertTransactions(txs, suffix, block) => InsertTransactionsSound(c, s.tables, txs, suffix, block);
    case LookUp(task, receipts) => HitsAreCacheEntries(s.cache, receipts);
    case AnswerData(task, receipts, answers) =>
      DataAnswersSound(c, s.tables, receipts, answers);
      ExtendSound(c, s.Of(task), OutputRows(answers, receipts));
    case AnswerActions(task, answers) =>
      ActionAnswersSound(c, s.tables, answers);
      ExtendSound(c, s.Of(task), answers);
    case CacheOutputs(task, receipts) => WithOutputsSound(c, evict, s.cache, receipts, s.Of(task));
    case InsertReceipts(task, receipts) =>
      RowsSound(c, receipts, s.Of(task));
      InsertRowsHolds(s.tables.receipts, StoredRows(receipts, s.Of(task)));
    case InsertOutputData(receipts) => InsertOutputDataSound(c, s.tables, receipts);
    case CacheOutcomes(outcomes) => WithOutcomesSound(c, evict, s.cache, outcomes);
    case InsertOutcomeReceipts(outcomes) => OutcomeRowsOnChain(c, outcomes);
  }

  /** Provenance safety: after any run, whatever was evicted and however blocks were interleaved or
      replayed, every cache entry, every answer of a lookup in flight and every stored row names
      the root transaction of its key. */
  lemma {:induction false} RunSound(c: Chain, evict: Eviction, steps: seq<Step>)
    requires c.WellFormed() && RunOf(c, evict, steps)
    ensures Run(evict, steps).Sound(c)
  {
    if steps != [] {
      RunSound(c, evict, Front(steps));
      StepSound(c, evict, Run(evict, Front(steps)), Last(steps));
    }
  }

  /** Two runs over one chain, with different cache sizes, evictions and interleavings, agree on
      the transaction of every receipt both have stored. */
  lemma RunsAgree(c: Chain, evict0: Eviction, steps0: seq<Step>, evict1: Eviction, steps1: seq<Step>, r: Hash)
    requires c.WellFormed() && RunOf(c, evict0, steps0) && RunOf(c, evict1, steps1)
    requires r in Run(evict0, steps0).tables.receipts && r in Run(evict1, steps1).tables.receipts
    ensures Run(evict0, steps0).tables.receipts[r].origin.hash == Run(evict1, steps1).tables.receipts[r].origin.hash
  {
    RunSound(c, evict0, steps0);
    RunSound(c, evict1, steps1);
    OriginUnique(c, ReceiptId(r), Run(evict0, steps0).tables.receipts[r].origin.hash,
        Run(evict1, steps1).tables.receipts[r].origin.hash);
  }

  /** The fast path agrees with the slow one: in every reachable state a cache hit is the answer
      that any of the three queries would give for the same key. */
  lemma HitAgreesWithQueries(c: Chain, evict: Eviction, steps: seq<Step>, key: ReceiptOrDataId, a: Answer)
    requires c.WellFormed() && RunOf(c, evict, steps)
    requires key in Run(evict, steps).cache.entries && key.id == a.id
    requires var t := Run(evict, steps).tables;
             if key.DataId? then t.AnswersData(a) else t.AnswersOutcome(a) || t.AnswersTransaction(a)
    ensures Run(evict, steps).cache.entries[key].hash == a.origin.hash
  {
    var s := Run(evict, steps);
    RunSound(c, evict, steps);
    if key.DataId? {
      DataAnswerSound(s.tables, c, a);
    } else if s.tables.AnswersOutcome(a) {
      OutcomeAnswerSound(s.tables, c, a);
    } else {
      TransactionAnswerSound(s.tables, c, a);
    }
    OriginUnique(c, key, s.cache.entries[key].hash, a.origin.hash);
  }

  /** The three queries of a pass read the tables at three moments of a run, so a lookup loop run
      beside other tasks gets sound answers. */
  lemma PassOfReachableTables(c: Chain, evict: Eviction, at0: seq<Step>, at1: seq<Step>, at2: seq<Step>, p: Pass)
    requires c.WellFormed() && RunOf(c, evict, at0) && RunOf(c, evict, at1) && RunOf(c, evict, at2)
    requires forall a :: a in p.outputs ==> Run(evict, at0).tables.AnswersData(a)
    requires p.outcomes.Some? ==> forall a :: a in p.outcomes.value ==> Run(evict, at1).tables.AnswersOutcome(a)
    requires p.transactions.Some? ==>
               forall a :: a in p.transactions.value ==> Run(evict, at2).tables.AnswersTransaction(a)
    ensures SoundPass(c, p)
  {
    RunSound(c, evict, at0);
    RunSound(c, evict, at1);
    RunSound(c, evict, at2);
    forall a | a in p.outputs { DataAnswerSound(Run(evict, at0).tables, c, a); }
    if p.outcomes.Some? { ActionAnswersSound(c, Run(evict, at1).tables, p.outcomes.value); }
    if p.transactions.Some? { ActionAnswersSound(c, Run(evict, at2).tables, p.transactions.value); }
  }
}
