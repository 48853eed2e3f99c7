/** The four tables that lead from a receipt to its transaction. A table is a map from its
    primary key; inserts ignore conflicts, so a stored row never changes. */
module Tables {
  import opened Types
  import opened Ancestry

  datatype TransactionRow = TransactionRow(block: Hash, convertedInto: Hash)
  datatype ReceiptRow = ReceiptRow(id: Hash, indexInChunk: nat, origin: TxHash)

  /** One answer of a lookup query: a requested id and a transaction hash. */
  datatype Answer = Answer(id: Hash, origin: TxHash)

  datatype Tables = Tables(
    transactions: map<TxHash, TransactionRow>,
    receipts: map<Hash, ReceiptRow>,
    outcomeReceipts: set<(Hash, Hash)>,   // (executed, produced)
    outputData: set<(Hash, Hash)>         // (action receipt, data id)
  ) {
    /** `action_receipt_output_data` joined with `receipts`. */
    ghost predicate AnswersData(a: Answer) {
      exists r :: (r, a.id) in outputData && r in receipts && receipts[r].origin == a.origin
    }

    /** `execution_outcome_receipts` joined with `receipts`. */
    ghost predicate AnswersOutcome(a: Answer) {
      exists r :: (r, a.id) in outcomeReceipts && r in receipts && receipts[r].origin == a.origin
    }

    ghost predicate AnswersTransaction(a: Answer) {
      a.origin in transactions && transactions[a.origin].convertedInto == a.id
    }

    ghost predicate Sound(c: Chain) {
      && (forall t :: t in transactions ==>
            var r := transactions[t].convertedInto;
            r in c.convertedFrom && c.convertedFrom[r] == t.hash)
      && (forall r :: r in receipts ==> c.Originates(ReceiptId(r), receipts[r].origin.hash))
      && (forall r, p :: (r, p) in outcomeReceipts ==> p in c.producedBy && c.producedBy[p] == r)
      && outputData <= c.names
    }
  }

  lemma DataAnswerSound(t: Tables, c: Chain, a: Answer)
    requires c.WellFormed() && t.Sound(c) && t.AnswersData(a)
    ensures c.Originates(DataId(a.id), a.origin.hash)
  {
    var r :| (r, a.id) in t.outputData && r in t.receipts && t.receipts[r].origin == a.origin;
    assert (r, a.id) in c.names;
    assert c.Originates(ReceiptId(r), a.origin.hash);
  }

  lemma OutcomeAnswerSound(t: Tables, c: Chain, a: Answer)
    requires c.WellFormed() && t.Sound(c) && t.AnswersOutcome(a)
    ensures c.Originates(ReceiptId(a.id), a.origin.hash)
  {
    var r :| (r, a.id) in t.outcomeReceipts && r in t.receipts && t.receipts[r].origin == a.origin;
    assert c.Originates(ReceiptId(r), a.origin.hash);
    ChildTakesParentRoot(c, a.id, a.origin.hash);
  }

  lemma TransactionAnswerSound(t: Tables, c: Chain, a: Answer)
    requires c.WellFormed() && t.Sound(c) && t.AnswersTransaction(a)
    ensures c.Originates(ReceiptId(a.id), a.origin.hash)
  {
    assert c.RootAt(a.id, a.origin.hash, 0);
  }
}
