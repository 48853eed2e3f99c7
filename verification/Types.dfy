/** The values the indexer reads from the chain and writes to its tables. */
module Types {

  datatype Option<+T> = None | Some(value: T)

  /** A CryptoHash. The program only compares hashes, so any countable type will do. */
  type Hash = nat

  type AccountId = string
  type PublicKey = string

  /** The text stored for a transaction hash: the hash itself, or the hash followed by
      `_issue84_<height>` when the bare hash was already taken by another block. A base58 hash
      has no underscore, so the pair determines the text and the text the pair. */
  datatype TxHash = TxHash(hash: Hash, suffix: Option<nat>)

  /** The key of the receipts cache and of every lookup answer. */
  datatype ReceiptOrDataId = ReceiptId(id: Hash) | DataId(id: Hash)

  type HashMap = map<ReceiptOrDataId, TxHash>

  datatype Action =
    | CreateAccount
    | Transfer
    | DeleteAccount
    | AddKey(publicKey: PublicKey)
    | DeleteKey(publicKey: PublicKey)
    | OtherAction

  datatype ReceiptKind =
    | ActionReceipt(actions: seq<Action>, inputs: seq<Hash>, outputs: seq<Hash>)
    | DataReceipt(dataId: Hash)

  datatype Receipt = Receipt(id: Hash, receiver: AccountId, kind: ReceiptKind)

  /** A transaction with the first receipt id of its outcome, the receipt it is converted into. */
  datatype Transaction = Transaction(hash: Hash, convertedInto: Hash)

  /** An execution outcome: the executed receipt and the ids of the receipts it produced. */
  datatype ExecutionOutcome = ExecutionOutcome(id: Hash, produced: seq<Hash>)

  function Last<T>(s: seq<T>): T
    requires s != []
  {
    s[|s| - 1]
  }

  function Front<T>(s: seq<T>): seq<T>
    requires s != []
  {
    s[..|s| - 1]
  }

  /** The elements satisfying `p`, in order: what `retain` and `filter` leave. */
  function Filter<T>(s: seq<T>, p: T -> bool): seq<T> {
    if s == [] then []
    else if p(Last(s)) then Filter(Front(s), p) + [Last(s)]
    else Filter(Front(s), p)
  }

  lemma {:induction false} FilterHolds<T(!new)>(s: seq<T>, p: T -> bool)
    ensures forall x :: x in Filter(s, p) <==> x in s && p(x)
    ensures |Filter(s, p)| <= |s|
  {
    if s != [] {
      FilterHolds(Front(s), p);
      assert s == Front(s) + [Last(s)];
    }
  }

  lemma {:induction false} FilterKeepsAll<T(!new)>(s: seq<T>, p: T -> bool)
    requires forall x :: x in s ==> p(x)
    ensures Filter(s, p) == s
  {
    if s != [] {
      assert Last(s) in s && forall x :: x in Front(s) ==> x in s;
      FilterKeepsAll(Front(s), p);
    }
  }

  lemma {:induction false} FilterTwice<T(!new)>(s: seq<T>, p: T -> bool, q: T -> bool)
    requires forall x :: x in s && q(x) ==> p(x)
    ensures Filter(Filter(s, p), q) == Filter(s, q)
  {
    if s != [] {
      assert Last(s) in s && forall x :: x in Front(s) ==> x in s;
      FilterTwice(Front(s), p, q);
      if p(Last(s)) {
        var front := Filter(Front(s), p);
        assert Front(front + [Last(s)]) == front;
      }
    }
  }

  lemma SameSizeSubset<T>(a: set<T>, b: set<T>)
    requires a <= b && |a| == |b|
    ensures a == b
  {
    forall x | x in b ensures x in a {
      if x !in a { SubsetSize(a, b - {x}); }
    }
  }

  lemma {:induction false} SubsetSize<T>(a: set<T>, b: set<T>)
    requires a <= b
    ensures |a| <= |b|
  {
    if a != {} {
      var x :| x in a;
      SubsetSize(a - {x}, b - {x});
    }
  }

  /** Distinct elements: the set is as large as the sequence. */
  lemma {:induction false} DistinctSize<T>(s: seq<T>)
    requires forall i, j :: 0 <= i < j < |s| ==> s[i] != s[j]
    ensures |set x | x in s| == |s|
  {
    if s != [] {
      var front := Front(s);
      DistinctSize(front);
      assert (set x | x in s) == (set x | x in front) + {Last(s)};
      assert Last(s) !in front;
    }
  }

  lemma {:induction false} FilterSame<T(!new)>(s: seq<T>, p: T -> bool, q: T -> bool)
    requires forall x :: x in s ==> (p(x) <==> q(x))
    ensures Filter(s, p) == Filter(s, q)
  {
    if s != [] {
      assert Last(s) in s && forall x :: x in Front(s) ==> x in s;
      FilterSame(Front(s), p, q);
    }
  }

  function FlatMap<T, U>(s: seq<T>, f: T -> seq<U>): seq<U> {
    if s == [] then [] else FlatMap(Front(s), f) + f(Last(s))
  }

  lemma {:induction false} FlatMapHolds<T, U>(s: seq<T>, f: T -> seq<U>, u: U)
    ensures u in FlatMap(s, f) <==> exists x :: x in s && u in f(x)
  {
    if s != [] {
      var front := Front(s);
      FlatMapHolds(front, f, u);
      assert forall x :: x in s <==> x in front || x == Last(s);
    }
  }

  lemma FlatMapOneMore<T, U>(s: seq<T>, i: nat, f: T -> seq<U>)
    requires i < |s|
    ensures FlatMap(s[..i + 1], f) == FlatMap(s[..i], f) + f(s[i])
  {
    assert Front(s[..i + 1]) == s[..i];
  }

  /** Element `j` of what `s[i]` maps to comes right after all that the elements before `i` map to. */
  lemma {:induction false} FlatMapPosition<T, U>(s: seq<T>, f: T -> seq<U>, i: nat, j: nat)
    requires i < |s| && j < |f(s[i])|
    ensures var p := |FlatMap(s[..i], f)| + j;
            p < |FlatMap(s, f)| && FlatMap(s, f)[p] == f(s[i])[j]
  {
    if i < |s| - 1 {
      assert Front(s)[..i] == s[..i];
      FlatMapPosition(Front(s), f, i, j);
    } else {
      assert Front(s) == s[..i];
    }
  }

  /** Every element comes from somewhere. */
  lemma {:induction false} FlatMapSource<T, U>(s: seq<T>, f: T -> seq<U>, p: nat) returns (i: nat, j: nat)
    requires p < |FlatMap(s, f)|
    ensures i < |s| && j < |f(s[i])| && p == |FlatMap(s[..i], f)| + j
  {
    var front := FlatMap(Front(s), f);
    if p < |front| {
      i, j := FlatMapSource(Front(s), f, p);
      assert Front(s)[..i] == s[..i];
    } else {
      i, j := |s| - 1, p - |front|;
      assert s[..i] == Front(s);
    }
  }

  lemma Associates<T>(a: seq<T>, b: seq<T>, c: seq<T>)
    ensures a + b + c == a + (b + c)
  {
  }

  lemma {:induction false} FlatMapConcat<T, U>(a: seq<T>, b: seq<T>, f: T -> seq<U>)
    ensures FlatMap(a + b, f) == FlatMap(a, f) + FlatMap(b, f)
  {
    if b == [] {
      assert a + b == a;
    } else {
      var all, front, last := a + b, Front(b), Last(b);
      assert Front(all) == a + front && Last(all) == last;
      FlatMapConcat(a, front, f);
      assert FlatMap(all, f) == FlatMap(a + front, f) + f(last);
      Associates(FlatMap(a, f), FlatMap(front, f), f(last));
    }
  }

  lemma {:induction false} FilterConcat<T>(a: seq<T>, b: seq<T>, p: T -> bool)
    ensures Filter(a + b, p) == Filter(a, p) + Filter(b, p)
  {
    if b == [] {
      assert a + b == a;
    } else {
      var all, front, last := a + b, Front(b), Last(b);
      assert Front(all) == a + front && Last(all) == last;
      FilterConcat(a, front, p);
    }
  }
}
