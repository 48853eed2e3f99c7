/** Storing the transactions of a block in two passes, so that a transaction whose hash another
    block already took is stored under a suffixed hash. */
module Transactions {
  import opened Types
  import opened Tables
  import opened ReceiptsCache

  type Table = map<TxHash, TransactionRow>
  type Rows = seq<(TxHash, TransactionRow)>

  /** Insert on conflict do nothing, keyed by the transaction hash. */
  function Insert(table: Table, rows: Rows): Table {
    if rows == [] then table
    else
      var t := Insert(table, Front(rows));
      if Last(rows).0 in t then t else t[Last(rows).0 := Last(rows).1]
  }

  function Flatten<T>(chunks: seq<seq<T>>): seq<T> {
    if chunks == [] then [] else Flatten(Front(chunks)) + Last(chunks)
  }

  /** The keys of the rows included in `block`. */
  function KeysOf(table: Table, block: Hash): set<TxHash> {
    set k | k in table && table[k].block == block
  }

  ghost predicate DistinctTransactions(txs: seq<Transaction>) {
    forall i, j :: 0 <= i < j < |txs| ==>
      txs[i].hash != txs[j].hash && txs[i].convertedInto != txs[j].convertedInto
  }

  /** What the table may hold of a block before or after it is stored, once or repeatedly: its own
      transactions, each under one of its two hashes; the suffix of the block's height belongs to
      the block, and is used only for hashes that another block took. */
  ghost predicate Consistent(table: Table, txs: seq<Transaction>, block: Hash, height: nat) {
    && (forall k :: k in table && table[k].block == block ==>
          && Transaction(k.hash, table[k].convertedInto) in txs
          && (k.suffix.None? || k.suffix == Some(height)))
    && (forall k :: k in table && k.suffix == Some(height) ==>
          && table[k].block == block
          && TxHash(k.hash, None) in table && table[TxHash(k.hash, None)].block != block)
  }

  /** The transaction has a row of this block, with its converted receipt, under one of its hashes. */
  ghost predicate Present(table: Table, tx: Transaction, block: Hash, height: nat) {
    || Holds(table, TxHash(tx.hash, None), tx, block)
    || Holds(table, TxHash(tx.hash, Some(height)), tx, block)
  }

  predicate Holds(table: Table, key: TxHash, tx: Transaction, block: Hash) {
    key in table && table[key] == TransactionRow(block, tx.convertedInto)
  }

  ghost predicate AllPresent(table: Table, txs: seq<Transaction>, block: Hash, height: nat) {
    forall tx :: tx in txs ==> Present(table, tx, block, height)
  }

  ghost predicate PlainTaken(table: Table, txs: seq<Transaction>) {
    forall tx :: tx in txs ==> TxHash(tx.hash, None) in table
  }

  /** Rows are only added. */
  ghost predicate Grows(before: Table, after: Table) {
    forall k :: k in before ==> k in after && after[k] == before[k]
  }

  /** Other blocks being stored at the same time only add rows of their own. */
  ghost predicate OnlyForeign(before: Table, after: Table, block: Hash, height: nat) {
    && Grows(before, after)
    && (forall k :: k in after && k !in before ==> after[k].block != block && k.suffix != Some(height))
  }

  lemma SameHash(txs: seq<Transaction>, a: Transaction, b: Transaction)
    requires DistinctTransactions(txs) && a in txs && b in txs
    requires a.hash == b.hash || a.convertedInto == b.convertedInto
    ensures a == b
  {
    var i :| 0 <= i < |txs| && txs[i] == a;
    var j :| 0 <= j < |txs| && txs[j] == b;
  }

  /** The converted receipt ids among the rows of a block. */
  function ConvertedIds(table: Table, block: Hash): set<Hash> {
    set k | k in KeysOf(table, block) :: table[k].convertedInto
  }

  lemma {:induction false} InsertAdds(table: Table, rows: Rows)
    ensures Grows(table, Insert(table, rows))
    ensures forall k :: k in Insert(table, rows) && k !in table ==>
              exists i :: 0 <= i < |rows| && rows[i] == (k, Insert(table, rows)[k])
    ensures forall i :: 0 <= i < |rows| ==> rows[i].0 in Insert(table, rows)
  {
    if rows != [] {
      var front := Front(rows);
      InsertAdds(table, front);
      forall k | k in Insert(table, rows) && k !in table
        ensures exists i :: 0 <= i < |rows| && rows[i] == (k, Insert(table, rows)[k])
      {
        if k in Insert(table, front) {
          var i :| 0 <= i < |front| && front[i] == (k, Insert(table, front)[k]);
          assert rows[i] == front[i];
        } else {
          assert rows[|rows| - 1] == (k, Insert(table, rows)[k]);
        }
      }
      forall i | 0 <= i < |rows| ensures rows[i].0 in Insert(table, rows) {
        if i < |front| { assert rows[i] == front[i]; }
      }
    }
  }

  function RowsFor(txs: seq<Transaction>, suffix: Option<nat>, block: Hash): Rows {
    seq(|txs|, i requires 0 <= i < |txs| => (TxHash(txs[i].hash, suffix), TransactionRow(block, txs[i].convertedInto)))
  }

  /** Inserting a chunk adds exactly the rows of its transactions whose key was free. */
  lemma InsertChunk(table: Table, txs: seq<Transaction>, chunk: seq<Transaction>, suffix: Option<nat>, block: Hash)
    requires DistinctTransactions(chunk) && forall tx :: tx in chunk ==> tx in txs
    ensures var t := Insert(table, RowsFor(chunk, suffix, block));
            && Grows(table, t)
            && (forall k :: k in t && k !in table ==>
                  k.suffix == suffix && t[k].block == block && Transaction(k.hash, t[k].convertedInto) in chunk)
            && (forall tx :: tx in chunk ==> TxHash(tx.hash, suffix) in t)
  {
    var rows := RowsFor(chunk, suffix, block);
    var t := Insert(table, rows);
    InsertAdds(table, rows);
    forall k | k in t && k !in table
      ensures k.suffix == suffix && t[k].block == block && Transaction(k.hash, t[k].convertedInto) in chunk
    {
      var i :| 0 <= i < |rows| && rows[i] == (k, t[k]);
      assert chunk[i] == Transaction(k.hash, t[k].convertedInto);
    }
    forall tx | tx in chunk ensures TxHash(tx.hash, suffix) in t {
      var i :| 0 <= i < |chunk| && chunk[i] == tx;
      assert rows[i].0 == TxHash(tx.hash, suffix);
    }
  }

  /** Pigeonhole: as many rows of the block as it has transactions means none is missing. */
  lemma EqualCountMeansAllPresent(table: Table, txs: seq<Transaction>, block: Hash, height: nat)
    requires DistinctTransactions(txs) && Consistent(table, txs, block, height)
    ensures |KeysOf(table, block)| == |txs| <==> AllPresent(table, txs, block, height)
  {
    var keys := KeysOf(table, block);
    var stored := set k | k in keys :: k.hash;
    var hashes := set tx | tx in txs :: tx.hash;
    HashesOfKeys(keys);
    HashesOfTransactions(txs);
    assert stored <= hashes by {
      forall k | k in keys ensures k.hash in hashes { assert Transaction(k.hash, table[k].convertedInto) in txs; }
    }
    if |keys| == |txs| {
      SameSizeSubset(stored, hashes);
      forall tx | tx in txs ensures Present(table, tx, block, height) {
        assert tx.hash in stored;
        var k :| k in keys && k.hash == tx.hash;
        SameHash(txs, tx, Transaction(k.hash, table[k].convertedInto));
      }
    }
    if AllPresent(table, txs, block, height) {
      forall h | h in hashes ensures h in stored {
        var tx :| tx in txs && tx.hash == h;
        var suffix := if Holds(table, TxHash(tx.hash, None), tx, block) then None else Some(height);
        assert TxHash(tx.hash, suffix) in keys;
      }
      assert stored == hashes;
    }
  }

  lemma {:induction false} HashesOfKeys(keys: set<TxHash>)
    requires forall k, l :: k in keys && l in keys && k.hash == l.hash ==> k == l
    ensures |set k | k in keys :: k.hash| == |keys|
  {
    if keys != {} {
      var x :| x in keys;
      HashesOfKeys(keys - {x});
      assert (set k | k in keys :: k.hash) == (set k | k in keys - {x} :: k.hash) + {x.hash};
    }
  }

  lemma HashesOfTransactions(txs: seq<Transaction>)
    requires DistinctTransactions(txs)
    ensures |set tx | tx in txs :: tx.hash| == |txs|
  {
    var hashes := seq(|txs|, i requires 0 <= i < |txs| => txs[i].hash);
    DistinctSize(hashes);
    assert (set tx | tx in txs :: tx.hash) == set x | x in hashes by {
      forall tx | tx in txs ensures tx.hash in hashes {
        var i :| 0 <= i < |txs| && txs[i] == tx;
        assert hashes[i] == tx.hash;
      }
    }
  }

  /** A chunk of the block is distinct and part of the block. */
  lemma {:induction false} ChunkOfBlock(chunks: seq<seq<Transaction>>, i: nat)
    requires DistinctTransactions(Flatten(chunks)) && i < |chunks|
    ensures DistinctTransactions(chunks[i]) && forall tx :: tx in chunks[i] ==> tx in Flatten(chunks)
  {
    var front := Flatten(Front(chunks));
    if i == |chunks| - 1 {
      assert forall j :: 0 <= j < |chunks[i]| ==> chunks[i][j] == Flatten(chunks)[|front| + j];
    } else {
      assert forall j :: 0 <= j < |front| ==> front[j] == Flatten(chunks)[j];
      ChunkOfBlock(Front(chunks), i);
    }
  }

  function Indices(n: nat): (s: set<nat>)
    ensures forall i: nat :: i in s <==> i < n
  {
    if n == 0 then {} else Indices(n - 1) + {n - 1}
  }

  lemma {:induction false} ChunkOf(chunks: seq<seq<Transaction>>, tx: Transaction) returns (i: nat)
    requires tx in Flatten(chunks)
    ensures i < |chunks| && tx in chunks[i]
  {
    if tx in Last(chunks) { return |chunks| - 1; }
    i := ChunkOf(Front(chunks), tx);
  }

  function Collided(chunk: seq<Transaction>, inserted: set<Hash>): (r: seq<Transaction>)
    ensures forall tx :: tx in r <==> tx in chunk && tx.convertedInto !in inserted
  {
    FilterHolds(chunk, (tx: Transaction) => tx.convertedInto !in inserted);
    Filter(chunk, (tx: Transaction) => tx.convertedInto !in inserted)
  }

  lemma {:induction false} CollidedDistinct(chunk: seq<Transaction>, inserted: set<Hash>)
    requires DistinctTransactions(chunk)
    ensures DistinctTransactions(Collided(chunk, inserted))
  {
    if chunk != [] {
      CollidedDistinct(Front(chunk), inserted);
      forall tx | tx in Collided(Front(chunk), inserted)
        ensures tx.hash != Last(chunk).hash && tx.convertedInto != Last(chunk).convertedInto
      {
        var i :| 0 <= i < |chunk| - 1 && chunk[i] == tx;
      }
    }
  }

  /** The first pass over a chunk keeps the table consistent, and adds nothing once all is stored. */
  lemma FirstPassChunk(table: Table, txs: seq<Transaction>, chunk: seq<Transaction>, block: Hash, height: nat)
    requires DistinctTransactions(txs) && Consistent(table, txs, block, height)
    requires DistinctTransactions(chunk) && forall tx :: tx in chunk ==> tx in txs
    ensures var t := Insert(table, RowsFor(chunk, None, block));
            && Consistent(t, txs, block, height) && Grows(table, t)
            && PlainTaken(t, chunk)
            && (AllPresent(table, txs, block, height) ==> t == table)
  {
    var t := Insert(table, RowsFor(chunk, None, block));
    InsertChunk(table, txs, chunk, None, block);
    if AllPresent(table, txs, block, height) {
      assert forall tx :: tx in chunk ==> Present(table, tx, block, height) && TxHash(tx.hash, None) in table;
    }
  }

  /** The second pass over a chunk, `before` being the table the converted ids were read from. */
  lemma SecondPassChunk(before: Table, table: Table, txs: seq<Transaction>, chunk: seq<Transaction>, block: Hash,
      height: nat)
    requires DistinctTransactions(txs) && Consistent(before, txs, block, height)
    requires Consistent(table, txs, block, height) && Grows(before, table)
    requires DistinctTransactions(chunk) && PlainTaken(before, txs) && forall tx :: tx in chunk ==> tx in txs
    ensures var t := Insert(table, RowsFor(Collided(chunk, ConvertedIds(before, block)), Some(height), block));
            && Consistent(t, txs, block, height) && Grows(table, t)
            && AllPresent(t, chunk, block, height)
            && (AllPresent(before, txs, block, height) ==> t == table)
  {
    var inserted := ConvertedIds(before, block);
    var collided := Collided(chunk, inserted);
    var t := Insert(table, RowsFor(collided, Some(height), block));
    CollidedDistinct(chunk, inserted);
    InsertChunk(table, txs, collided, Some(height), block);
    forall tx | tx in collided ensures before[TxHash(tx.hash, None)].block != block {
      var key := TxHash(tx.hash, None);
      assert before[key].block == block ==> key in KeysOf(before, block);
      if before[key].block == block {
        SameHash(txs, tx, Transaction(key.hash, before[key].convertedInto));
      }
    }
    assert Consistent(t, txs, block, height);
    forall tx | tx in chunk ensures Present(t, tx, block, height) {
      if tx.convertedInto in inserted {
        PresentWhenInserted(before, txs, tx, block, height);
      } else {
        var key := TxHash(tx.hash, Some(height));
        SameHash(txs, tx, Transaction(key.hash, t[key].convertedInto));
      }
    }
    if AllPresent(before, txs, block, height) {
      forall tx | tx in chunk ensures tx.convertedInto in inserted {
        assert Present(before, tx, block, height);
        var suffix := if Holds(before, TxHash(tx.hash, None), tx, block) then None else Some(height);
        assert TxHash(tx.hash, suffix) in KeysOf(before, block);
      }
      assert forall k :: k in t ==> k in table;
    }
  }

  /** What the second pass keeps from chunk to chunk, `done` being the transactions it has seen. */
  ghost predicate SecondPassDone(before: Table, table: Table, txs: seq<Transaction>, done: seq<Transaction>,
      block: Hash, height: nat) {
    && Consistent(table, txs, block, height) && Grows(before, table)
    && AllPresent(table, done, block, height)
    && (AllPresent(before, txs, block, height) ==> OnlyForeign(before, table, block, height))
  }

  lemma SecondPassStep(before: Table, prev: Table, table: Table, txs: seq<Transaction>, done: seq<Transaction>,
      chunk: seq<Transaction>, block: Hash, height: nat)
    requires DistinctTransactions(txs) && Consistent(before, txs, block, height) && PlainTaken(before, txs)
    requires SecondPassDone(before, prev, txs, done, block, height) && OnlyForeign(prev, table, block, height)
    requires DistinctTransactions(chunk) && forall tx :: tx in chunk ==> tx in txs
    ensures var rows := RowsFor(Collided(chunk, ConvertedIds(before, block)), Some(height), block);
            SecondPassDone(before, Insert(table, rows), txs, done + chunk, block, height)
  {
    SecondPassChunk(before, table, txs, chunk, block, height);
  }

  lemma PresentWhenInserted(table: Table, txs: seq<Transaction>, tx: Transaction, block: Hash, height: nat)
    requires DistinctTransactions(txs) && Consistent(table, txs, block, height)
    requires tx in txs && tx.convertedInto in ConvertedIds(table, block)
    ensures Present(table, tx, block, height)
  {
    var k :| k in KeysOf(table, block) && table[k].convertedInto == tx.convertedInto;
    SameHash(txs, tx, Transaction(k.hash, table[k].convertedInto));
  }

  /** Storing a chunk binds each receipt to its transaction under the suffix in use. */
  lemma ChunkBinds(chunk: seq<Transaction>, suffix: Option<nat>, cache: Cache, evict: Eviction, tx: Transaction)
    requires DistinctTransactions(chunk) && tx in chunk
    ensures Bound(evict, cache.WithTransactions(evict, chunk, suffix), ReceiptId(tx.convertedInto),
              TxHash(tx.hash, suffix))
  {
    var i :| 0 <= i < |chunk| && chunk[i] == tx;
    TransactionBinds(cache, evict, chunk, suffix, i);
  }

  /** Replaying a stored block, with or without collided transactions: no chunk changes the table, the
      counts agree, so the first pass is all there is, and it leaves bare hashes in the cache, also
      for transactions whose rows are suffixed. */
  lemma ReplayCachesBareHash(
    table: Table, txs: seq<Transaction>, chunk: seq<Transaction>, block: Hash, height: nat, cache: Cache,
    evict: Eviction)
    requires DistinctTransactions(txs) && Consistent(table, txs, block, height) && AllPresent(table, txs, block, height)
    requires DistinctTransactions(chunk) && forall tx :: tx in chunk ==> tx in txs
    ensures Insert(table, RowsFor(chunk, None, block)) == table
    ensures |KeysOf(table, block)| == |txs|
    ensures forall tx :: tx in chunk ==>
              Bound(evict, cache.WithTransactions(evict, chunk, None), ReceiptId(tx.convertedInto),
                  TxHash(tx.hash, None))
  {
    EqualCountMeansAllPresent(table, txs, block, height);
    FirstPassChunk(table, txs, chunk, block, height);
    forall tx | tx in chunk { ChunkBinds(chunk, None, cache, evict, tx); }
  }

  lemma GrowsAgain(t0: Table, t1: Table, t2: Table, txs: seq<Transaction>, block: Hash, height: nat)
    requires Grows(t0, t1) && Grows(t1, t2)
    ensures Grows(t0, t2)
    ensures AllPresent(t0, txs, block, height) ==> AllPresent(t1, txs, block, height)
    ensures OnlyForeign(t0, t1, block, height) && OnlyForeign(t1, t2, block, height) ==>
              OnlyForeign(t0, t2, block, height)
  {
    if AllPresent(t0, txs, block, height) {
      forall tx | tx in txs ensures Present(t1, tx, block, height) { assert Present(t0, tx, block, height); }
    }
  }

  /** The table of transactions, written by several blocks at the same time. */
  class TransactionsTable {
    var rows: Table

    method OtherBlocks(block: Hash, height: nat)
      modifies this
      ensures OnlyForeign(old(rows), rows, block, height)
    {
      var foreign: Table := *;
      rows := rows + map k |
          k in foreign && k !in rows && foreign[k].block != block && k.suffix != Some(height) :: foreign[k];
    }

    method StoreChunk(cache: SharedCache, chunk: seq<Transaction>, suffix: Option<nat>, block: Hash)
      modifies this, cache
      ensures rows == Insert(old(rows), RowsFor(chunk, suffix, block))
      ensures cache.State() == old(cache.State()).WithTransactions(cache.evict, chunk, suffix)
    {
      var models := cache.CacheTransactions(chunk, suffix, block);
      assert models == RowsFor(chunk, suffix, block);
      rows := Insert(rows, models);
    }

    method FirstPassOne(cache: SharedCache, chunk: seq<Transaction>, ghost txs: seq<Transaction>, block: Hash,
        height: nat)
      requires DistinctTransactions(txs) && Consistent(rows, txs, block, height)
      requires DistinctTransactions(chunk) && forall tx :: tx in chunk ==> tx in txs
      modifies this, cache
      ensures Consistent(rows, txs, block, height) && Grows(old(rows), rows) && PlainTaken(rows, chunk)
      ensures AllPresent(old(rows), txs, block, height) ==> OnlyForeign(old(rows), rows, block, height)
    {
      OtherBlocks(block, height);
      cache.Yield();
      FirstPassChunk(rows, txs, chunk, block, height);
      StoreChunk(cache, chunk, None, block);
    }

    /** The joined chunks of a block, in any order, with other blocks and other stays under the cache
        lock in between. */
    method FirstPass(cache: SharedCache, chunks: seq<seq<Transaction>>, block: Hash, height: nat)
      requires DistinctTransactions(Flatten(chunks)) && Consistent(rows, Flatten(chunks), block, height)
      modifies this, cache
      ensures Consistent(rows, Flatten(chunks), block, height) && Grows(old(rows), rows)
      ensures PlainTaken(rows, Flatten(chunks))
      ensures AllPresent(old(rows), Flatten(chunks), block, height) ==> OnlyForeign(old(rows), rows, block, height)
    {
      ghost var txs := Flatten(chunks);
      var todo := Indices(|chunks|);
      while todo != {}
        invariant forall i: nat :: i in todo ==> i < |chunks|
        invariant Consistent(rows, txs, block, height) && Grows(old(rows), rows)
        invariant forall i: nat :: i < |chunks| && i !in todo ==> PlainTaken(rows, chunks[i])
        invariant AllPresent(old(rows), txs, block, height) ==> OnlyForeign(old(rows), rows, block, height)
        decreases |todo|
      {
        var i: nat :| i in todo;
        todo := todo - {i};
        ChunkOfBlock(chunks, i);
        ghost var prev := rows;
        FirstPassOne(cache, chunks[i], txs, block, height);
        GrowsAgain(old(rows), prev, rows, txs, block, height);
      }
      forall tx | tx in txs ensures TxHash(tx.hash, None) in rows { var i := ChunkOf(chunks, tx); }
    }

    method SecondPass(cache: SharedCache, chunks: seq<seq<Transaction>>, block: Hash, height: nat)
      requires DistinctTransactions(Flatten(chunks)) && Consistent(rows, Flatten(chunks), block, height)
      requires PlainTaken(rows, Flatten(chunks))
      modifies this, cache
      ensures Consistent(rows, Flatten(chunks), block, height) && Grows(old(rows), rows)
      ensures AllPresent(rows, Flatten(chunks), block, height)
      ensures AllPresent(old(rows), Flatten(chunks), block, height) ==> OnlyForeign(old(rows), rows, block, height)
    {
      ghost var txs := Flatten(chunks);
      var inserted := ConvertedIds(rows, block);
      ghost var done: seq<Transaction> := [];
      var todo := Indices(|chunks|);
      while todo != {}
        invariant forall i: nat :: i in todo ==> i < |chunks|
        invariant forall i: nat, tx :: i < |chunks| && i !in todo && tx in chunks[i] ==> tx in done
        invariant SecondPassDone(old(rows), rows, txs, done, block, height)
        decreases |todo|
      {
        var i: nat :| i in todo;
        todo := todo - {i};
        ghost var prev := rows;
        OtherBlocks(block, height);
        cache.Yield();
        ChunkOfBlock(chunks, i);
        SecondPassStep(old(rows), prev, rows, txs, done, chunks[i], block, height);
        StoreChunk(cache, Collided(chunks[i], inserted), Some(height), block);
        done := done + chunks[i];
      }
      forall tx | tx in txs ensures Present(rows, tx, block, height) { var i := ChunkOf(chunks, tx); }
    }

    /** Every transaction of the block ends with a row, even when its hash was taken; a rerun, or
        any number of them, writes nothing more. */
    method StoreTransactions(cache: SharedCache, chunks: seq<seq<Transaction>>, block: Hash, height: nat)
      requires DistinctTransactions(Flatten(chunks)) && Consistent(rows, Flatten(chunks), block, height)
      modifies this, cache
      ensures AllPresent(rows, Flatten(chunks), block, height)
      ensures Consistent(rows, Flatten(chunks), block, height) && Grows(old(rows), rows)
      ensures AllPresent(old(rows), Flatten(chunks), block, height) ==> OnlyForeign(old(rows), rows, block, height)
    {
      FirstPass(cache, chunks, block, height);
      EqualCountMeansAllPresent(rows, Flatten(chunks), block, height);
      if |KeysOf(rows, block)| == |Flatten(chunks)| { return; }
      SecondPass(cache, chunks, block, height);
    }
  }
}
