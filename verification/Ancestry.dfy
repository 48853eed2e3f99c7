/** The ancestry of receipts on the chain, independent of any indexer.

    Every action receipt is either converted from one transaction or produced by executing one
    earlier action receipt; a data id is first named by one action receipt and may be handed
    down to receipts that receipt produces; a data receipt carries one data id. */
module Ancestry {
  import opened Types

  datatype Chain = Chain(
    convertedFrom: map<Hash, Hash>,   // receipt -> the transaction converted into it
    producedBy: map<Hash, Hash>,      // receipt -> the receipt whose execution produced it
    names: set<(Hash, Hash)>,         // (action receipt, data id among its output receivers)
    firstNamer: map<Hash, Hash>,      // data id -> the receipt that named it first
    carries: map<Hash, Hash>          // data receipt -> its data id
  ) {
    /** Receipts are produced or converted once, never both; data receipts are neither, do not
        execute and name nothing; a data id is handed down only from parent to child. */
    ghost predicate WellFormed() {
      && convertedFrom.Keys !! producedBy.Keys
      && (forall r :: r in producedBy ==> r !in carries && producedBy[r] !in carries)
      && (forall r :: r in convertedFrom ==> r !in carries)
      && (forall r, d :: (r, d) in names ==>
            && r !in carries
            && d in firstNamer
            && (r == firstNamer[d] || (r in producedBy && (producedBy[r], d) in names)))
    }

    /** `tx` is `depth` productions above receipt `r`. */
    ghost predicate RootAt(r: Hash, tx: Hash, depth: nat)
      decreases depth
    {
      if depth == 0 then r in convertedFrom && convertedFrom[r] == tx
      else r in producedBy && RootAt(producedBy[r], tx, depth - 1)
    }

    ghost predicate Root(r: Hash, tx: Hash) {
      exists depth: nat :: RootAt(r, tx, depth)
    }

    /** The transaction a cache key, a lookup key or a row must name. A data receipt takes the
        root of the receipts that named its data id. */
    ghost predicate Originates(key: ReceiptOrDataId, tx: Hash)
      decreases key.ReceiptId?
    {
      match key
      case DataId(d) => exists r :: (r, d) in names && Root(r, tx)
      case ReceiptId(r) =>
        if r in carries then Originates(DataId(carries[r]), tx) else Root(r, tx)
    }

    /** Every entry of `m` names the root of its key, whatever the collision suffix. */
    ghost predicate Sound(m: HashMap) {
      forall key :: key in m ==> Originates(key, m[key].hash)
    }
  }

  lemma {:induction false} RootAtUnique(c: Chain, r: Hash, t0: Hash, n0: nat, t1: Hash, n1: nat)
    requires c.WellFormed() && c.RootAt(r, t0, n0) && c.RootAt(r, t1, n1)
    ensures t0 == t1 && n0 == n1
    decreases n0
  {
    if n0 != 0 && n1 != 0 {
      RootAtUnique(c, c.producedBy[r], t0, n0 - 1, t1, n1 - 1);
    }
  }

  /** A receipt has at most one root transaction. */
  lemma RootUnique(c: Chain, r: Hash, t0: Hash, t1: Hash)
    requires c.WellFormed() && c.Root(r, t0) && c.Root(r, t1)
    ensures t0 == t1
  {
    var n0: nat :| c.RootAt(r, t0, n0);
    var n1: nat :| c.RootAt(r, t1, n1);
    RootAtUnique(c, r, t0, n0, t1, n1);
  }

  /** Executing a receipt hands its root to everything it produces, and takes it from nowhere else. */
  lemma ChildTakesParentRoot(c: Chain, child: Hash, tx: Hash)
    requires c.WellFormed() && child in c.producedBy
    ensures c.Root(child, tx) <==> c.Root(c.producedBy[child], tx)
  {
    var parent := c.producedBy[child];
    if c.Root(child, tx) {
      var n: nat :| c.RootAt(child, tx, n);
      assert n != 0;
      assert c.RootAt(parent, tx, n - 1);
    }
    if c.Root(parent, tx) {
      var n: nat :| c.RootAt(parent, tx, n);
      assert c.RootAt(child, tx, n + 1);
    }
  }

  /** However far a data id was handed down, its holder has the root of the first namer. */
  lemma {:induction false} NamerHasFirstNamerRoot(c: Chain, r: Hash, d: Hash, tx: Hash, depth: nat)
    requires c.WellFormed() && (r, d) in c.names && c.RootAt(r, tx, depth)
    ensures c.Root(c.firstNamer[d], tx)
    decreases depth
  {
    if r != c.firstNamer[d] {
      NamerHasFirstNamerRoot(c, c.producedBy[r], d, tx, depth - 1);
    }
  }

  /** A key names at most one transaction: two receipts naming one data id share their root. */
  lemma OriginUnique(c: Chain, key: ReceiptOrDataId, t0: Hash, t1: Hash)
    requires c.WellFormed() && c.Originates(key, t0) && c.Originates(key, t1)
    ensures t0 == t1
    decreases key.ReceiptId?
  {
    match key
    case DataId(d) =>
      var r0 :| (r0, d) in c.names && c.Root(r0, t0);
      var r1 :| (r1, d) in c.names && c.Root(r1, t1);
      var n0: nat :| c.RootAt(r0, t0, n0);
      var n1: nat :| c.RootAt(r1, t1, n1);
      NamerHasFirstNamerRoot(c, r0, d, t0, n0);
      NamerHasFirstNamerRoot(c, r1, d, t1, n1);
      RootUnique(c, c.firstNamer[d], t0, t1);
    case ReceiptId(r) =>
      if r in c.carries {
        OriginUnique(c, DataId(c.carries[r]), t0, t1);
      } else {
        RootUnique(c, r, t0, t1);
      }
  }
}
