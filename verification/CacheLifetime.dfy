/** What the cache still holds when blocks are handled one at a time and in order: only keys whose
    receipt has not executed and whose data has not been delivered. */
module CacheLifetime {
  import opened Types
  import opened ReceiptsCache
  import opened Provenance

  /** The block in which each receipt executes and each data id is delivered. */
  datatype Calendar = Calendar(executedIn: map<Hash, nat>, deliveredIn: map<Hash, nat>)

  /** A step with the block that takes it. Within a block, execution outcomes come after
      transactions and receipts. */
  datatype Timed = Timed(block: nat, step: Step) {
    function Phase(): nat {
      if step.CacheOutcomes? || step.InsertOutcomeReceipts? then 1 else 0
    }

    predicate NotAfter(other: Timed) {
      block < other.block || (block == other.block && Phase() <= other.Phase())
    }
  }

  function Steps(run: seq<Timed>): seq<Step> {
    seq(|run|, i requires 0 <= i < |run| => run[i].step)
  }

  /** A receipt executes in the block of its outcome, never before its transaction is included and
      only after the block that produced it; data arrives after the blocks of its namers. */
  ghost predicate Causal(cal: Calendar, t: Timed) {
    match t.step
    case CacheTransactions(txs, _) =>
      forall tx :: tx in txs && tx.convertedInto in cal.executedIn ==> t.block <= cal.executedIn[tx.convertedInto]
    case LookUp(_, receipts) =>
      forall r :: r in receipts && r.kind.DataReceipt? ==>
        r.kind.dataId in cal.deliveredIn && cal.deliveredIn[r.kind.dataId] == t.block
    case CacheOutputs(_, receipts) =>
      forall r, d :: r in receipts && r.kind.ActionReceipt? && d in r.kind.outputs && d in cal.deliveredIn ==>
        t.block < cal.deliveredIn[d]
    case CacheOutcomes(outcomes) =>
      forall o :: o in outcomes ==>
        && o.id in cal.executedIn && cal.executedIn[o.id] == t.block
        && forall p :: p in o.produced && p in cal.executedIn ==> t.block < cal.executedIn[p]
    case _ => true
  }

  ghost predicate InOrder(cal: Calendar, run: seq<Timed>) {
    && (forall i, j :: 0 <= i < j < |run| ==> run[i].NotAfter(run[j]))
    && (forall i :: 0 <= i < |run| ==> Causal(cal, run[i]))
  }

  /** The step spends the key: it executes the receipt or delivers the data. */
  ghost predicate Spends(step: Step, key: ReceiptOrDataId) {
    match step
    case CacheOutcomes(outcomes) => key.ReceiptId? && exists o :: o in outcomes && o.id == key.id
    case LookUp(_, receipts) => key.DataId? && exists r :: r in receipts && r.kind == DataReceipt(key.id)
    case _ => false
  }

  /** The step may bind the key. */
  ghost predicate Binds(step: Step, key: ReceiptOrDataId) {
    match step
    case CacheTransactions(txs, _) => key.ReceiptId? && exists tx :: tx in txs && tx.convertedInto == key.id
    case CacheOutputs(_, receipts) =>
      key.DataId? && exists r :: r in receipts && r.kind.ActionReceipt? && key.id in r.kind.outputs
    case CacheOutcomes(outcomes) => key.ReceiptId? && exists o :: o in outcomes && key.id in o.produced
    case _ => false
  }

  lemma {:induction false} SetAllKeys(evict: Eviction, cache: Cache, keys: seq<ReceiptOrDataId>, value: TxHash,
      key: ReceiptOrDataId)
    requires key in cache.SetAll(evict, keys, value).entries
    ensures key in cache.entries || key in keys
  {
    if keys != [] && key != Last(keys) {
      SetAllKeys(evict, cache, Front(keys), value, key);
    }
  }

  lemma {:induction false} TransactionKeys(evict: Eviction, cache: Cache, txs: seq<Transaction>, suffix: Option<nat>,
      key: ReceiptOrDataId)
    requires key in cache.WithTransactions(evict, txs, suffix).entries
    ensures key in cache.entries || (key.ReceiptId? && exists tx :: tx in txs && tx.convertedInto == key.id)
  {
    if txs != [] && key != ReceiptId(Last(txs).convertedInto) {
      TransactionKeys(evict, cache, Front(txs), suffix, key);
    }
  }

  lemma {:induction false} OutputKeys(evict: Eviction, cache: Cache, receipts: seq<Receipt>, found: HashMap,
      key: ReceiptOrDataId)
    requires key in cache.WithOutputs(evict, receipts, found).entries
    ensures key in cache.entries
            || (key.DataId? && exists r :: r in receipts && r.kind.ActionReceipt? && key.id in r.kind.outputs)
  {
    if receipts != [] {
      var r := Last(receipts);
      var c := cache.WithOutputs(evict, Front(receipts), found);
      if r.kind.ActionReceipt? && ReceiptId(r.id) in found {
        SetAllKeys(evict, c, AsDataIds(r.kind.outputs), found[ReceiptId(r.id)], key);
      }
      if key in c.entries { OutputKeys(evict, cache, Front(receipts), found, key); }
    }
  }

  /** An executed id leaves the cache, unless a later outcome of the same region produced it. */
  lemma {:induction false} OutcomeKeys(evict: Eviction, cache: Cache, outcomes: seq<ExecutionOutcome>,
      key: ReceiptOrDataId)
    requires key in cache.WithOutcomes(evict, outcomes).entries
    ensures (key in cache.entries && !Spends(CacheOutcomes(outcomes), key)) || Binds(CacheOutcomes(outcomes), key)
  {
    if outcomes != [] {
      var o := Last(outcomes);
      var c := cache.WithOutcomes(evict, Front(outcomes));
      assert forall x :: x in outcomes <==> x in Front(outcomes) || x == o;
      if ReceiptId(o.id) in c.entries {
        SetAllKeys(evict, c.Remove(ReceiptId(o.id)), AsReceiptIds(o.produced), c.entries[ReceiptId(o.id)], key);
      }
      if key.ReceiptId? && key.id in o.produced {
      } else {
        OutcomeKeys(evict, cache, Front(outcomes), key);
      }
    }
  }

  /** A key in the cache after a step was there before and not spent, or the step bound it. */
  lemma StepKeys(evict: Eviction, s: State, step: Step, key: ReceiptOrDataId)
    requires key in Apply(evict, s, step).cache.entries
    ensures (key in s.cache.entries && !Spends(step, key)) || Binds(step, key)
  {
    match step
    case CacheTransactions(txs, suffix) => TransactionKeys(evict, s.cache, txs, suffix, key);
    case LookUp(_, receipts) => HitsAreCacheEntries(s.cache, receipts);
    case CacheOutputs(task, receipts) => OutputKeys(evict, s.cache, receipts, s.Of(task), key);
    case CacheOutcomes(outcomes) => OutcomeKeys(evict, s.cache, outcomes, key);
    case _ =>
  }

  /** In order, a key is never bound by or after the step that spends it. */
  lemma NotBoundOnceSpent(cal: Calendar, spender: Timed, binder: Timed, key: ReceiptOrDataId)
    requires Causal(cal, spender) && Causal(cal, binder) && spender.NotAfter(binder)
    requires Spends(spender.step, key)
    ensures !Binds(binder.step, key)
  {
  }

  /** The cache holds only outstanding keys: no step so far has executed the receipt or delivered
      the data of a key still cached. */
  lemma {:induction false} OnlyOutstanding(cal: Calendar, evict: Eviction, run: seq<Timed>, key: ReceiptOrDataId,
      i: nat)
    requires InOrder(cal, run) && i < |run|
    requires key in Run(evict, Steps(run)).cache.entries
    ensures !Spends(run[i].step, key)
  {
    var front := Front(run);
    assert Front(Steps(run)) == Steps(front);
    var s := Run(evict, Steps(front));
    StepKeys(evict, s, Last(run).step, key);
    if Spends(run[i].step, key) {
      NotBoundOnceSpent(cal, run[i], Last(run), key);
      if i < |front| {
        OnlyOutstanding(cal, evict, front, key, i);
      }
    }
  }
}
