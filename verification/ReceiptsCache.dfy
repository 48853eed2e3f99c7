/** The bounded cache shared by transactions, receipts and execution outcomes, and the four
    regions of code that run under its lock.

    The eviction policy of the bounded cache is any function from the number of the insertion to
    the set of keys that insertion drops, so whatever holds here holds for every capacity. */
module ReceiptsCache {
  import opened Types
  import opened Tables

  type Eviction = nat -> set<ReceiptOrDataId>

  datatype Cache = Cache(entries: HashMap, insertions: nat) {

    function Set(evict: Eviction, key: ReceiptOrDataId, value: TxHash): Cache {
      Cache((entries - evict(insertions))[key := value], insertions + 1)
    }

    function Remove(key: ReceiptOrDataId): Cache {
      this.(entries := entries - {key})
    }

    function SetAll(evict: Eviction, keys: seq<ReceiptOrDataId>, value: TxHash): Cache {
      if keys == [] then this
      else SetAll(evict, Front(keys), value).Set(evict, Last(keys), value)
    }

    /** Building transaction rows: each converted receipt is bound to its transaction. */
    function WithTransactions(evict: Eviction, txs: seq<Transaction>, suffix: Option<nat>): Cache {
      if txs == [] then this
      else
        WithTransactions(evict, Front(txs), suffix)
        .Set(evict, ReceiptId(Last(txs).convertedInto), TxHash(Last(txs).hash, suffix))
    }

    /** One outcome: the executed id leaves, and its value passes to the produced ids. */
    function WithOutcome(evict: Eviction, o: ExecutionOutcome): Cache {
      var key := ReceiptId(o.id);
      if key in entries then Remove(key).SetAll(evict, AsReceiptIds(o.produced), entries[key])
      else this
    }

    function WithOutcomes(evict: Eviction, outcomes: seq<ExecutionOutcome>): Cache {
      if outcomes == [] then this
      else WithOutcomes(evict, Front(outcomes)).WithOutcome(evict, Last(outcomes))
    }

    /** Looking up a chunk: action receipts are read, data ids are taken out. */
    function AfterLookup(receipts: seq<Receipt>): Cache {
      if receipts == [] then this
      else
        var c := AfterLookup(Front(receipts));
        if Last(receipts).kind.DataReceipt? then c.Remove(OwnKey(Last(receipts))) else c
    }

    /** What the lookup of a chunk finds. */
    function Hits(receipts: seq<Receipt>): HashMap {
      if receipts == [] then map[]
      else
        var c := AfterLookup(Front(receipts));
        var key := OwnKey(Last(receipts));
        var hits := Hits(Front(receipts));
        if key in c.entries then hits[key := c.entries[key]] else hits
    }

    /** Binding the data ids an action receipt names to the transaction found for it. */
    function WithOutputs(evict: Eviction, receipts: seq<Receipt>, found: HashMap): Cache {
      if receipts == [] then this
      else
        var c := WithOutputs(evict, Front(receipts), found);
        var r := Last(receipts);
        if r.kind.ActionReceipt? && ReceiptId(r.id) in found
        then c.SetAll(evict, AsDataIds(r.kind.outputs), found[ReceiptId(r.id)])
        else c
    }
  }

  /** The key under which the rows of a chunk are looked up: ReceiptId for an action receipt,
      DataId for a data receipt. */
  function OwnKey(r: Receipt): ReceiptOrDataId {
    match r.kind
    case ActionReceipt(_, _, _) => ReceiptId(r.id)
    case DataReceipt(d) => DataId(d)
  }

  function AsReceiptIds(ids: seq<Hash>): seq<ReceiptOrDataId> {
    seq(|ids|, i requires 0 <= i < |ids| => ReceiptId(ids[i]))
  }

  function AsDataIds(ids: seq<Hash>): seq<ReceiptOrDataId> {
    seq(|ids|, i requires 0 <= i < |ids| => DataId(ids[i]))
  }

  datatype OutcomeReceiptRow = OutcomeReceiptRow(executed: Hash, index: nat, produced: Hash)

  function RowsOf(o: ExecutionOutcome): seq<OutcomeReceiptRow> {
    seq(|o.produced|, i requires 0 <= i < |o.produced| => OutcomeReceiptRow(o.id, i, o.produced[i]))
  }

  function OutcomeRows(outcomes: seq<ExecutionOutcome>): seq<OutcomeReceiptRow> {
    if outcomes == [] then [] else OutcomeRows(Front(outcomes)) + RowsOf(Last(outcomes))
  }

  ghost predicate Asked(receipts: seq<Receipt>, key: ReceiptOrDataId) {
    exists r :: r in receipts && OwnKey(r) == key
  }

  /** A lookup finds exactly the asked keys that were cached as the region was entered, with their
      cached values, even when a data id is asked for twice; exactly the asked data ids leave. */
  lemma {:induction false} HitsAreCacheEntries(c: Cache, receipts: seq<Receipt>)
    ensures forall key :: key in c.Hits(receipts) <==> key in c.entries && Asked(receipts, key)
    ensures forall key :: key in c.Hits(receipts) ==> c.Hits(receipts)[key] == c.entries[key]
    ensures forall key :: key in c.AfterLookup(receipts).entries <==>
              key in c.entries && !(key.DataId? && Asked(receipts, key))
    ensures forall key :: key in c.AfterLookup(receipts).entries ==>
              c.AfterLookup(receipts).entries[key] == c.entries[key]
  {
    if receipts != [] {
      HitsAreCacheEntries(c, Front(receipts));
      assert receipts == Front(receipts) + [Last(receipts)];
      assert forall key :: Asked(receipts, key) <==> key == OwnKey(Last(receipts)) || Asked(Front(receipts), key);
    }
  }

  // ---- What the other regions leave ------------------------------------------------------------

  ghost predicate NoEviction(evict: Eviction) {
    forall i :: evict(i) == {}
  }

  /** The key carries the value if it is cached, which it is unless evicted. */
  ghost predicate Bound(evict: Eviction, after: Cache, key: ReceiptOrDataId, value: TxHash) {
    && (key in after.entries ==> after.entries[key] == value)
    && (NoEviction(evict) ==> key in after.entries)
  }

  /** The key has its old entry, if any, or lost it to an eviction. */
  ghost predicate Untouched(evict: Eviction, before: Cache, after: Cache, key: ReceiptOrDataId) {
    && (key in after.entries ==> key in before.entries && after.entries[key] == before.entries[key])
    && (NoEviction(evict) && key in before.entries ==> key in after.entries)
  }

  lemma {:induction false} SetAllHolds(c: Cache, evict: Eviction, keys: seq<ReceiptOrDataId>, value: TxHash,
      key: ReceiptOrDataId)
    ensures key in keys ==> Bound(evict, c.SetAll(evict, keys, value), key, value)
    ensures key !in keys ==> Untouched(evict, c, c.SetAll(evict, keys, value), key)
  {
    if keys != [] {
      SetAllHolds(c, evict, Front(keys), value, key);
      assert keys == Front(keys) + [Last(keys)];
    }
  }

  /** A transaction binds the receipt it is converted into, under the suffix in use. */
  lemma {:induction false} TransactionBinds(c: Cache, evict: Eviction, txs: seq<Transaction>, suffix: Option<nat>,
      i: nat)
    requires i < |txs| && forall j :: i < j < |txs| ==> txs[j].convertedInto != txs[i].convertedInto
    ensures Bound(evict, c.WithTransactions(evict, txs, suffix), ReceiptId(txs[i].convertedInto),
              TxHash(txs[i].hash, suffix))
  {
    if i < |txs| - 1 {
      assert Last(txs) == txs[|txs| - 1];
      TransactionBinds(c, evict, Front(txs), suffix, i);
    }
  }

  lemma {:induction false} TransactionsLeave(c: Cache, evict: Eviction, txs: seq<Transaction>, suffix: Option<nat>,
      key: ReceiptOrDataId)
    requires forall tx :: tx in txs ==> key != ReceiptId(tx.convertedInto)
    ensures Untouched(evict, c, c.WithTransactions(evict, txs, suffix), key)
  {
    if txs != [] {
      assert Last(txs) in txs && forall tx :: tx in Front(txs) ==> tx in txs;
      TransactionsLeave(c, evict, Front(txs), suffix, key);
    }
  }

  /** An outcome of a cached receipt hands its value to everything produced, and its own entry goes;
      that of an uncached one does nothing. */
  lemma OutcomeHandsOn(c: Cache, evict: Eviction, o: ExecutionOutcome, key: ReceiptOrDataId)
    ensures var parent, after := ReceiptId(o.id), c.WithOutcome(evict, o);
            && (parent !in c.entries ==> after == c)
            && (parent in c.entries && key in AsReceiptIds(o.produced) ==> Bound(evict, after, key, c.entries[parent]))
            && (parent in c.entries && key !in AsReceiptIds(o.produced) && key == parent ==> key !in after.entries)
            && (parent in c.entries && key !in AsReceiptIds(o.produced) && key != parent ==>
                Untouched(evict, c, after, key))
  {
    var parent := ReceiptId(o.id);
    if parent in c.entries {
      SetAllHolds(c.Remove(parent), evict, AsReceiptIds(o.produced), c.entries[parent], key);
    }
  }

  lemma ProducedKey(ids: seq<Hash>, id: Hash)
    ensures ReceiptId(id) in AsReceiptIds(ids) <==> id in ids
    ensures DataId(id) in AsDataIds(ids) <==> id in ids
  {
    if id in ids {
      var i :| 0 <= i < |ids| && ids[i] == id;
      assert AsReceiptIds(ids)[i] == ReceiptId(id) && AsDataIds(ids)[i] == DataId(id);
    }
  }

  /** Among many outcomes, in their order: what outcome `i` produced carries the value the executed
      receipt had when its turn came, unless a later outcome concerns it again. */
  lemma {:induction false} ChildGetsParentValue(c: Cache, evict: Eviction, outcomes: seq<ExecutionOutcome>, i: nat,
      child: Hash)
    requires i < |outcomes| && child in outcomes[i].produced
    requires forall j :: i < j < |outcomes| ==> outcomes[j].id != child && child !in outcomes[j].produced
    requires ReceiptId(outcomes[i].id) in c.WithOutcomes(evict, outcomes[..i]).entries
    ensures Bound(evict, c.WithOutcomes(evict, outcomes), ReceiptId(child),
                  c.WithOutcomes(evict, outcomes[..i]).entries[ReceiptId(outcomes[i].id)])
  {
    var front, o := Front(outcomes), Last(outcomes);
    OutcomeHandsOn(c.WithOutcomes(evict, front), evict, o, ReceiptId(child));
    ProducedKey(o.produced, child);
    if i < |front| {
      assert o == outcomes[|outcomes| - 1] && front[..i] == outcomes[..i];
      ChildGetsParentValue(c, evict, front, i, child);
    } else {
      assert outcomes[..i] == front;
    }
  }

  lemma {:induction false} OutcomesLeave(c: Cache, evict: Eviction, outcomes: seq<ExecutionOutcome>, id: Hash)
    requires forall o :: o in outcomes ==> o.id != id && id !in o.produced
    ensures Untouched(evict, c, c.WithOutcomes(evict, outcomes), ReceiptId(id))
  {
    if outcomes != [] {
      var front, o := Front(outcomes), Last(outcomes);
      assert o in outcomes && forall x :: x in front ==> x in outcomes;
      OutcomesLeave(c, evict, front, id);
      OutcomeHandsOn(c.WithOutcomes(evict, front), evict, o, ReceiptId(id));
      ProducedKey(o.produced, id);
    }
  }

  /** A receipt that was found binds the data ids it names. */
  predicate NamesFound(r: Receipt, found: HashMap, d: Hash) {
    r.kind.ActionReceipt? && ReceiptId(r.id) in found && d in r.kind.outputs
  }

  /** A named data id gets the transaction of the last receipt of the chunk that names it. */
  lemma {:induction false} OutputBinds(c: Cache, evict: Eviction, receipts: seq<Receipt>, found: HashMap, d: Hash,
      i: nat)
    requires i < |receipts| && NamesFound(receipts[i], found, d)
    requires forall j :: i < j < |receipts| ==> !NamesFound(receipts[j], found, d)
    ensures Bound(evict, c.WithOutputs(evict, receipts, found), DataId(d), found[ReceiptId(receipts[i].id)])
  {
    var front, r := Front(receipts), Last(receipts);
    var before := c.WithOutputs(evict, front, found);
    if r.kind.ActionReceipt? && ReceiptId(r.id) in found {
      SetAllHolds(before, evict, AsDataIds(r.kind.outputs), found[ReceiptId(r.id)], DataId(d));
      ProducedKey(r.kind.outputs, d);
    }
    if i < |front| {
      assert r == receipts[|receipts| - 1];
      OutputBinds(c, evict, front, found, d, i);
    }
  }

  /** Other data ids and all receipt ids keep their entries. */
  lemma {:induction false} OutputsLeave(c: Cache, evict: Eviction, receipts: seq<Receipt>, found: HashMap,
      key: ReceiptOrDataId)
    requires key.DataId? ==> forall r :: r in receipts ==> !NamesFound(r, found, key.id)
    ensures Untouched(evict, c, c.WithOutputs(evict, receipts, found), key)
  {
    if receipts != [] {
      var front, r := Front(receipts), Last(receipts);
      assert r in receipts && forall x :: x in front ==> x in receipts;
      OutputsLeave(c, evict, front, found, key);
      if r.kind.ActionReceipt? && ReceiptId(r.id) in found {
        SetAllHolds(c.WithOutputs(evict, front, found), evict, AsDataIds(r.kind.outputs), found[ReceiptId(r.id)], key);
        ProducedKey(r.kind.outputs, key.id);
      }
    }
  }

  /** The rows of the outcomes: each produced receipt at its position. */
  lemma {:induction false} OutcomeRowsExactly(outcomes: seq<ExecutionOutcome>, row: OutcomeReceiptRow)
    ensures row in OutcomeRows(outcomes) <==>
            exists o, i :: o in outcomes && 0 <= i < |o.produced| && row == OutcomeReceiptRow(o.id, i, o.produced[i])
  {
    if outcomes != [] {
      var front, last := Front(outcomes), Last(outcomes);
      OutcomeRowsExactly(front, row);
      assert forall o :: o in outcomes <==> o in front || o == last;
      assert forall i :: 0 <= i < |last.produced| ==>
          RowsOf(last)[i] == OutcomeReceiptRow(last.id, i, last.produced[i]);
    }
  }

  lemma ProducedHasRow(outcomes: seq<ExecutionOutcome>, o: ExecutionOutcome, p: Hash)
    requires o in outcomes && p in o.produced
    ensures exists row :: row in OutcomeRows(outcomes) && row.executed == o.id && row.produced == p
  {
    var i :| 0 <= i < |o.produced| && o.produced[i] == p;
    OutcomeRowsExactly(outcomes, OutcomeReceiptRow(o.id, i, p));
  }

  /** The cache object every task holds a reference to; each method is one stay under its lock. */
  class SharedCache {
    const evict: Eviction
    var entries: HashMap
    var insertions: nat

    constructor (evict: Eviction)
      ensures this.evict == evict && State() == Cache(map[], 0)
    {
      this.evict := evict;
      entries, insertions := map[], 0;
    }

    function State(): Cache
      reads this
    {
      Cache(entries, insertions)
    }

    method Set(key: ReceiptOrDataId, value: TxHash)
      modifies this
      ensures State() == old(State()).Set(evict, key, value)
    {
      entries := (entries - evict(insertions))[key := value];
      insertions := insertions + 1;
    }

    method Remove(key: ReceiptOrDataId) returns (value: Option<TxHash>)
      modifies this
      ensures State() == old(State()).Remove(key)
      ensures value == if key in old(entries) then Some(old(entries)[key]) else None
    {
      value := if key in entries then Some(entries[key]) else None;
      entries := entries - {key};
    }

    /** The lock is free: other tasks may do anything to the cache. */
    method Yield()
      modifies this
    {
      entries := *;
      insertions := *;
    }

    method CacheTransactions(txs: seq<Transaction>, suffix: Option<nat>, block: Hash)
      returns (rows: seq<(TxHash, TransactionRow)>)
      modifies this
      ensures State() == old(State()).WithTransactions(evict, txs, suffix)
      ensures |rows| == |txs|
      ensures forall i :: 0 <= i < |txs| ==>
                rows[i] == (TxHash(txs[i].hash, suffix), TransactionRow(block, txs[i].convertedInto))
    {
      rows := [];
      for i := 0 to |txs|
        invariant State() == old(State()).WithTransactions(evict, txs[..i], suffix)
        invariant |rows| == i
        invariant forall j :: 0 <= j < i ==>
                    rows[j] == (TxHash(txs[j].hash, suffix), TransactionRow(block, txs[j].convertedInto))
      {
        assert Front(txs[..i + 1]) == txs[..i];
        Set(ReceiptId(txs[i].convertedInto), TxHash(txs[i].hash, suffix));
        rows := rows + [(TxHash(txs[i].hash, suffix), TransactionRow(block, txs[i].convertedInto))];
      }
      assert txs[..|txs|] == txs;
    }

    method CacheOutcomes(outcomes: seq<ExecutionOutcome>) returns (rows: seq<OutcomeReceiptRow>)
      modifies this
      ensures State() == old(State()).WithOutcomes(evict, outcomes)
      ensures rows == OutcomeRows(outcomes)
    {
      rows := [];
      for i := 0 to |outcomes|
        invariant State() == old(State()).WithOutcomes(evict, outcomes[..i])
        invariant rows == OutcomeRows(outcomes[..i])
      {
        assert Front(outcomes[..i + 1]) == outcomes[..i];
        var o := outcomes[i];
        var parent := Remove(ReceiptId(o.id));
        if parent.Some? {
          SetAll(AsReceiptIds(o.produced), parent.value);
        } else {
          assert entries == entries - {ReceiptId(o.id)};
        }
        rows := rows + RowsOf(o);
      }
      assert outcomes[..|outcomes|] == outcomes;
    }

    method SetAll(keys: seq<ReceiptOrDataId>, value: TxHash)
      modifies this
      ensures State() == old(State()).SetAll(evict, keys, value)
    {
      for i := 0 to |keys|
        invariant State() == old(State()).SetAll(evict, keys[..i], value)
      {
        assert Front(keys[..i + 1]) == keys[..i];
        Set(keys[i], value);
      }
      assert keys[..|keys|] == keys;
    }

    method Lookup(receipts: seq<Receipt>) returns (found: HashMap)
      modifies this
      ensures State() == old(State()).AfterLookup(receipts)
      ensures found == old(State()).Hits(receipts)
    {
      found := map[];
      for i := 0 to |receipts|
        invariant State() == old(State()).AfterLookup(receipts[..i])
        invariant found == old(State()).Hits(receipts[..i])
      {
        assert Front(receipts[..i + 1]) == receipts[..i];
        var key := OwnKey(receipts[i]);
        match receipts[i].kind
        case ActionReceipt(_, _, _) =>
          if key in entries { found := found[key := entries[key]]; }
        case DataReceipt(_) =>
          var taken := Remove(key);
          if taken.Some? { found := found[key := taken.value]; }
      }
      assert receipts[..|receipts|] == receipts;
    }

    method CacheOutputs(receipts: seq<Receipt>, found: HashMap)
      modifies this
      ensures State() == old(State()).WithOutputs(evict, receipts, found)
    {
      for i := 0 to |receipts|
        invariant State() == old(State()).WithOutputs(evict, receipts[..i], found)
      {
        assert Front(receipts[..i + 1]) == receipts[..i];
        var r := receipts[i];
        if r.kind.ActionReceipt? && r.kind.outputs != [] && ReceiptId(r.id) in found {
          SetAll(AsDataIds(r.kind.outputs), found[ReceiptId(r.id)]);
        }
      }
      assert receipts[..|receipts|] == receipts;
    }
  }
}
