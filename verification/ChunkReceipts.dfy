/** Storing the receipts of a chunk: which are stored, which are skipped, and their child rows. */
module ChunkReceipts {
  import opened Types
  import opened Ancestry
  import opened Tables
  import opened ReceiptsCache
  import opened ParentLookup

  datatype ActionRow = ActionRow(receipt: Hash, index: nat, action: Action)
  datatype InputRow = InputRow(receipt: Hash, dataId: Hash)
  datatype DataRow = DataRow(dataId: Hash, receipt: Hash)

  datatype ChildRows = ChildRows(
    actionReceipts: seq<Hash>,
    actions: seq<ActionRow>,
    outputs: seq<(Hash, Hash)>,
    inputs: seq<InputRow>,
    data: seq<DataRow>)

  datatype Outcome =
    | Stored(hashes: HashMap, rows: seq<ReceiptRow>, skipped: set<Hash>, children: ChildRows)
    | NotStored     // a query failed for good, or the passes given were not enough

  /** The receipts a lookup answered under the key their rows are built from. */
  function Known(receipts: seq<Receipt>, found: HashMap): (r: seq<Receipt>)
    ensures forall x :: x in r <==> x in receipts && OwnKey(x) in found
  {
    FilterHolds(receipts, (r: Receipt) => OwnKey(r) in found);
    Filter(receipts, (r: Receipt) => OwnKey(r) in found)
  }

  /** The row of each known receipt, with its position in the whole chunk. */
  function StoredRows(receipts: seq<Receipt>, found: HashMap): seq<ReceiptRow> {
    if receipts == [] then []
    else
      var r := Last(receipts);
      var rows := StoredRows(Front(receipts), found);
      if OwnKey(r) in found then rows + [ReceiptRow(r.id, |receipts| - 1, found[OwnKey(r)])] else rows
  }

  function SkippedIds(receipts: seq<Receipt>, found: HashMap): set<Hash> {
    set r | r in receipts && OwnKey(r) !in found :: r.id
  }

  function ActionReceiptOf(r: Receipt): seq<Hash> {
    if r.kind.ActionReceipt? then [r.id] else []
  }

  function ActionRowsOf(r: Receipt): seq<ActionRow> {
    if r.kind.ActionReceipt?
    then seq(|r.kind.actions|, i requires 0 <= i < |r.kind.actions| => ActionRow(r.id, i, r.kind.actions[i]))
    else []
  }

  function OutputRowsOf(r: Receipt): seq<(Hash, Hash)> {
    if r.kind.ActionReceipt?
    then seq(|r.kind.outputs|, i requires 0 <= i < |r.kind.outputs| => (r.id, r.kind.outputs[i]))
    else []
  }

  function InputRowsOf(r: Receipt): seq<InputRow> {
    if r.kind.ActionReceipt?
    then seq(|r.kind.inputs|, i requires 0 <= i < |r.kind.inputs| => InputRow(r.id, r.kind.inputs[i]))
    else []
  }

  function DataRowsOf(r: Receipt): seq<DataRow> {
    if r.kind.DataReceipt? then [DataRow(r.kind.dataId, r.id)] else []
  }

  /** The child rows of the receipts that are not skipped, receipt by receipt. */
  function ChildrenOf(kept: seq<Receipt>): ChildRows {
    ChildRows(FlatMap(kept, ActionReceiptOf), FlatMap(kept, ActionRowsOf), FlatMap(kept, OutputRowsOf),
              FlatMap(kept, InputRowsOf), FlatMap(kept, DataRowsOf))
  }

  /** Every stored receipt has its own row at its own position and nothing else has one. */
  lemma {:induction false} StoredRowsExact(receipts: seq<Receipt>, found: HashMap)
    ensures forall i :: 0 <= i < |receipts| && OwnKey(receipts[i]) in found ==>
              ReceiptRow(receipts[i].id, i, found[OwnKey(receipts[i])]) in StoredRows(receipts, found)
    ensures forall row :: row in StoredRows(receipts, found) ==>
              && row.indexInChunk < |receipts|
              && OwnKey(receipts[row.indexInChunk]) in found
              && row.id == receipts[row.indexInChunk].id
              && row.origin == found[OwnKey(receipts[row.indexInChunk])]
    ensures forall i, j :: 0 <= i < j < |StoredRows(receipts, found)| ==>
              StoredRows(receipts, found)[i].indexInChunk < StoredRows(receipts, found)[j].indexInChunk
  {
    if receipts != [] {
      var front := Front(receipts);
      StoredRowsExact(front, found);
      assert forall i :: 0 <= i < |front| ==> front[i] == receipts[i];
    }
  }

  ghost predicate IsStored(receipts: seq<Receipt>, found: HashMap, r: Receipt) {
    r in receipts && OwnKey(r) in found
  }

  lemma RowsOfStored<U(!new)>(receipts: seq<Receipt>, found: HashMap, f: Receipt -> seq<U>)
    ensures forall u :: u in FlatMap(Known(receipts, found), f) <==>
              exists r :: IsStored(receipts, found, r) && u in f(r)
  {
    forall u
      ensures u in FlatMap(Known(receipts, found), f) <==> exists r :: IsStored(receipts, found, r) && u in f(r)
    {
      FlatMapHolds(Known(receipts, found), f, u);
    }
  }

  predicate IsActionRow(r: Receipt, row: ActionRow) {
    r.kind.ActionReceipt? && exists i :: 0 <= i < |r.kind.actions| && row == ActionRow(r.id, i, r.kind.actions[i])
  }

  predicate IsOutputRow(r: Receipt, row: (Hash, Hash)) {
    r.kind.ActionReceipt? && exists i :: 0 <= i < |r.kind.outputs| && row == (r.id, r.kind.outputs[i])
  }

  predicate IsInputRow(r: Receipt, row: InputRow) {
    r.kind.ActionReceipt? && exists i :: 0 <= i < |r.kind.inputs| && row == InputRow(r.id, r.kind.inputs[i])
  }

  lemma RowsOfReceipt(r: Receipt)
    ensures forall id :: id in ActionReceiptOf(r) <==> r.kind.ActionReceipt? && id == r.id
    ensures forall row :: row in ActionRowsOf(r) <==> IsActionRow(r, row)
    ensures forall row :: row in OutputRowsOf(r) <==> IsOutputRow(r, row)
    ensures forall row :: row in InputRowsOf(r) <==> IsInputRow(r, row)
    ensures forall row :: row in DataRowsOf(r) <==> r.kind.DataReceipt? && row == DataRow(r.kind.dataId, r.id)
  {
    if r.kind.ActionReceipt? {
      assert forall i :: 0 <= i < |r.kind.actions| ==> ActionRowsOf(r)[i] == ActionRow(r.id, i, r.kind.actions[i]);
      assert forall i :: 0 <= i < |r.kind.outputs| ==> OutputRowsOf(r)[i] == (r.id, r.kind.outputs[i]);
      assert forall i :: 0 <= i < |r.kind.inputs| ==> InputRowsOf(r)[i] == InputRow(r.id, r.kind.inputs[i]);
    }
  }

  /** Child rows are built exactly for stored receipts: for an action receipt itself, each action at its
      position, each named output and each awaited input; for a data receipt its data id. */
  lemma ChildrenOfStored(receipts: seq<Receipt>, found: HashMap)
    ensures var c := ChildrenOf(Known(receipts, found));
            && (forall id :: id in c.actionReceipts <==>
                  exists r :: IsStored(receipts, found, r) && r.kind.ActionReceipt? && id == r.id)
            && (forall row :: row in c.actions <==> exists r :: IsStored(receipts, found, r) && IsActionRow(r, row))
            && (forall row :: row in c.outputs <==> exists r :: IsStored(receipts, found, r) && IsOutputRow(r, row))
            && (forall row :: row in c.inputs <==> exists r :: IsStored(receipts, found, r) && IsInputRow(r, row))
            && (forall row :: row in c.data <==>
                  exists r :: IsStored(receipts, found, r) && r.kind.DataReceipt?
                      && row == DataRow(r.kind.dataId, r.id))
  {
    forall r, id ensures id in ActionReceiptOf(r) <==> r.kind.ActionReceipt? && id == r.id { RowsOfReceipt(r); }
    forall r, row: ActionRow ensures row in ActionRowsOf(r) <==> IsActionRow(r, row) { RowsOfReceipt(r); }
    forall r, row: (Hash, Hash) ensures row in OutputRowsOf(r) <==> IsOutputRow(r, row) { RowsOfReceipt(r); }
    forall r, row: InputRow ensures row in InputRowsOf(r) <==> IsInputRow(r, row) { RowsOfReceipt(r); }
    forall r, row: DataRow
      ensures row in DataRowsOf(r) <==> r.kind.DataReceipt? && row == DataRow(r.kind.dataId, r.id)
    {
      RowsOfReceipt(r);
    }
    RowsOfStored(receipts, found, ActionReceiptOf);
    RowsOfStored(receipts, found, ActionRowsOf);
    RowsOfStored(receipts, found, OutputRowsOf);
    RowsOfStored(receipts, found, InputRowsOf);
    RowsOfStored(receipts, found, DataRowsOf);
  }

  function Kept(receipts: seq<Receipt>, skipped: set<Hash>): seq<Receipt> {
    Filter(receipts, (r: Receipt) => r.id !in skipped)
  }

  /** With distinct ids a receipt is skipped exactly when its own key is unknown, so filtering out
      the skipped ids leaves the known receipts. */
  lemma SkippedAreUnknown(receipts: seq<Receipt>, found: HashMap)
    requires DistinctIds(receipts)
    ensures forall r :: r in receipts ==> (r.id !in SkippedIds(receipts, found) <==> OwnKey(r) in found)
    ensures Kept(receipts, SkippedIds(receipts, found)) == Known(receipts, found)
  {
    var skipped := SkippedIds(receipts, found);
    forall r | r in receipts ensures r.id !in skipped <==> OwnKey(r) in found {
      if r.id in skipped {
        var q :| q in receipts && OwnKey(q) !in found && q.id == r.id;
        SameIdSameReceipt(receipts, q, r);
      }
    }
    FilterSame(receipts, (r: Receipt) => r.id !in skipped, (r: Receipt) => OwnKey(r) in found);
  }

  /** Which receipts of a chunk a finished lookup knows, in terms of the cache it started from. */
  lemma KnownAfterLookup(receipts: seq<Receipt>, cache: Cache, found: HashMap, r: Receipt)
    requires OnlyAnswers(Missed(receipts, cache.Hits(receipts)), cache.Hits(receipts), found)
    requires r in receipts
    ensures OwnKey(r) in cache.entries ==> OwnKey(r) in found
    ensures r.kind.DataReceipt? && OwnKey(r) in found ==> OwnKey(r) in cache.entries
    ensures r.kind.ActionReceipt? && AllResolved(Missed(receipts, cache.Hits(receipts)), found) ==> OwnKey(r) in found
  {
    HitsAreCacheEntries(cache, receipts);
    assert Asked(receipts, OwnKey(r));
  }

  lemma RowsSound(c: Chain, receipts: seq<Receipt>, found: HashMap)
    requires OnChain(c, receipts) && c.Sound(found)
    ensures forall row :: row in StoredRows(receipts, found) ==> c.Originates(ReceiptId(row.id), row.origin.hash)
  {
    StoredRowsExact(receipts, found);
    forall row | row in StoredRows(receipts, found) ensures c.Originates(ReceiptId(row.id), row.origin.hash) {
      var r := receipts[row.indexInChunk];
      assert r in receipts;
      assert c.Originates(OwnKey(r), row.origin.hash);
    }
  }

  /** Where a known receipt's transaction comes from: the cache, or for an action receipt a pass. */
  lemma KnownFrom(receipts: seq<Receipt>, cache: Cache, passes: seq<Pass>, found: HashMap, r: Receipt)
    requires var cached := cache.Hits(receipts);
             && OnlyAnswers(Missed(receipts, cached), cached, found)
             && Answers(passes, Missed(receipts, cached), cached, found)
    requires r in receipts && OwnKey(r) in found
    ensures || (OwnKey(r) in cache.entries && found[OwnKey(r)] == cache.entries[OwnKey(r)])
            || (r.kind.ActionReceipt? && exists p :: p in passes && Offers(p, r, found[OwnKey(r)]))
  {
    HitsAreCacheEntries(cache, receipts);
    assert Asked(receipts, OwnKey(r));
    if OwnKey(r) !in cache.entries { assert r in Missed(receipts, cache.Hits(receipts)); }
  }

  /** An action receipt is left unknown only if none of the passes could answer it. */
  lemma UnknownUnanswered(receipts: seq<Receipt>, cached: HashMap, passes: seq<Pass>, found: HashMap, r: Receipt)
    requires Answers(passes, Missed(receipts, cached), cached, found) && Unique(passes)
    requires r in receipts && r.kind.ActionReceipt? && OwnKey(r) !in found
    ensures forall p :: p in passes ==> !CanAnswer(p, r)
  {
    assert r in Missed(receipts, cached);
  }

  /** How storing a chunk ends, for a cache found as `cache`, after using so many of the passes: the
      rows and child rows of what the lookup knows; in strict mode that is all it missed. It does not
      end only while no query fails, and then not for more than four passes outside strict mode; and
      once a pass can answer everything missed it ends. */
  ghost predicate Ends(receipts: seq<Receipt>, cache: Cache, strict: bool, passes: seq<Pass>, used: nat, out: Outcome) {
    var cached := cache.Hits(receipts);
    var missed := Missed(receipts, cached);
    && used <= |passes|
    && (out.Stored? ==>
          && out.rows == StoredRows(receipts, out.hashes) && out.skipped == SkippedIds(receipts, out.hashes)
          && out.children == ChildrenOf(Known(receipts, out.hashes))
          && OnlyAnswers(missed, cached, out.hashes) && Answers(passes[..used], missed, cached, out.hashes)
          && (strict && Unique(passes) ==> AllResolved(missed, out.hashes)))
    && (out.NotStored? ==>
          || (used > 0 && Broken(passes[used - 1]))
          || (used == |passes| && !AnyBroken(passes) && (strict || used < 5)))
    && (Unique(passes) && !AnyBroken(passes) && (exists p :: p in passes && AnswersAll(p, missed)) ==> out.Stored?)
  }

  /** A data receipt is stored exactly when its data id was cached; the database never helps it. Strict
      mode skips no action receipt, no mode one that was cached, or that a pass used could answer. */
  ghost predicate Partition(
    receipts: seq<Receipt>, cache: Cache, strict: bool, passes: seq<Pass>, used: nat, skipped: set<Hash>)
    requires used <= |passes|
  {
    && (forall r :: r in receipts && r.kind.DataReceipt? ==>
          (r.id !in skipped <==> DataId(r.kind.dataId) in cache.entries))
    && (forall r :: r in receipts && r.kind.ActionReceipt? && r.id in skipped ==>
          && ReceiptId(r.id) !in cache.entries
          && (Unique(passes) ==> !strict && forall p :: p in passes[..used] ==> !CanAnswer(p, r)))
  }

  lemma EndsPartition(
    receipts: seq<Receipt>, cache: Cache, strict: bool, passes: seq<Pass>, used: nat, out: Outcome)
    requires DistinctIds(receipts) && Ends(receipts, cache, strict, passes, used, out) && out.Stored?
    ensures Partition(receipts, cache, strict, passes, used, out.skipped)
  {
    SkippedAreUnknown(receipts, out.hashes);
    UniquePrefix(passes, used);
    forall r | r in receipts
      ensures r.kind.DataReceipt? ==> (r.id !in out.skipped <==> DataId(r.kind.dataId) in cache.entries)
      ensures r.kind.ActionReceipt? && r.id in out.skipped ==> ReceiptId(r.id) !in cache.entries
      ensures r.kind.ActionReceipt? && r.id in out.skipped && Unique(passes) ==>
                !strict && forall p :: p in passes[..used] ==> !CanAnswer(p, r)
    {
      KnownAfterLookup(receipts, cache, out.hashes, r);
      if r.kind.ActionReceipt? && OwnKey(r) !in out.hashes && Unique(passes) {
        UnknownUnanswered(receipts, cache.Hits(receipts), passes[..used], out.hashes, r);
      }
    }
  }

  /** store_chunk_receipts, between its entry and the inserts it issues. The ghost result is the
      cache as the second region was entered; other tasks run between the two. */
  method StoreChunkReceipts(ghost c: Chain, cache: SharedCache, receipts: seq<Receipt>, strict: bool, passes: seq<Pass>)
    returns (out: Outcome, ghost second: Cache, ghost used: nat)
    requires DistinctIds(receipts)
    modifies cache
    ensures Ends(receipts, old(cache.State()), strict, passes, used, out)
    // Which receipts are stored, and which are skipped.
    ensures out.Stored? ==> Partition(receipts, old(cache.State()), strict, passes, used, out.skipped)
    ensures out.Stored? ==> cache.State() == second.WithOutputs(cache.evict, receipts, out.hashes)
    // Every row names its root when the cache and the tables did.
    ensures out.Stored? && OnChain(c, receipts) && c.Sound(old(cache.entries)) && SoundPasses(c, passes) ==>
              forall row :: row in out.rows ==> c.Originates(ReceiptId(row.id), row.origin.hash)
  {
    ghost var first := cache.State();
    var cached := cache.Lookup(receipts);
    second := first;
    HitsAreCacheEntries(first, receipts);
    var lookup, passesUsed := FindTxHashes(c, receipts, cached, strict, passes);
    if p :| p in passes && AnswersAll(p, Missed(receipts, cached)) {
      var k :| 0 <= k < |passes| && passes[k] == p;
    }
    used := passesUsed;
    cache.Yield();
    if !lookup.Found? { return NotStored, second, used; }
    var found := lookup.hashes;
    var rows, skipped := BuildRows(receipts, found);
    second := cache.State();
    cache.CacheOutputs(receipts, found);
    var kept := Kept(receipts, skipped);
    out := Stored(found, rows, skipped, ChildrenOf(kept));

    SkippedAreUnknown(receipts, found);
    EndsPartition(receipts, first, strict, passes, used, out);
    if OnChain(c, receipts) && c.Sound(found) { RowsSound(c, receipts, found); }
  }

  /** Across chunks: what a stored action receipt named, and is still cached when the data arrives, makes
      the data receipt known, with the transaction of the last receipt that named it. */
  lemma NamedDataIsStored(
    evict: Eviction, before: Cache, namers: seq<Receipt>, found: HashMap, i: nat, d: Hash,
    cache: Cache, receipts: seq<Receipt>, strict: bool, passes: seq<Pass>, used: nat, out: Outcome, r: Receipt)
    requires i < |namers| && NamesFound(namers[i], found, d)
    requires forall j :: i < j < |namers| ==> !NamesFound(namers[j], found, d)
    requires var after := before.WithOutputs(evict, namers, found).entries;
             (DataId(d) in after || NoEviction(evict))
             && (DataId(d) in after ==> DataId(d) in cache.entries && cache.entries[DataId(d)] == after[DataId(d)])
    requires DistinctIds(receipts) && Ends(receipts, cache, strict, passes, used, out) && out.Stored?
    requires r in receipts && r.kind == DataReceipt(d)
    ensures r.id !in out.skipped && OwnKey(r) in out.hashes
    ensures out.hashes[OwnKey(r)] == found[ReceiptId(namers[i].id)]
  {
    OutputBinds(before, evict, namers, found, d, i);
    EndsPartition(receipts, cache, strict, passes, used, out);
    SkippedAreUnknown(receipts, out.hashes);
    KnownFrom(receipts, cache, passes[..used], out.hashes, r);
  }

  lemma SkippedSnoc(receipts: seq<Receipt>, r: Receipt, found: HashMap)
    ensures SkippedIds(receipts + [r], found) ==
            SkippedIds(receipts, found) + if OwnKey(r) in found then {} else {r.id}
  {
    assert forall x :: x in receipts + [r] <==> x in receipts || x == r;
  }

  /** The row building closure: rows for the known receipts, ids of the others put aside. */
  method BuildRows(receipts: seq<Receipt>, found: HashMap) returns (rows: seq<ReceiptRow>, skipped: set<Hash>)
    ensures rows == StoredRows(receipts, found) && skipped == SkippedIds(receipts, found)
  {
    rows, skipped := [], {};
    for i := 0 to |receipts|
      invariant rows == StoredRows(receipts[..i], found) && skipped == SkippedIds(receipts[..i], found)
    {
      assert Front(receipts[..i + 1]) == receipts[..i];
      SkippedSnoc(receipts[..i], receipts[i], found);
      assert receipts[..i + 1] == receipts[..i] + [receipts[i]];
      var r := receipts[i];
      if OwnKey(r) in found {
        rows := rows + [ReceiptRow(r.id, i, found[OwnKey(r)])];
      } else {
        skipped := skipped + {r.id};
      }
    }
    assert receipts[..|receipts|] == receipts;
  }
}
