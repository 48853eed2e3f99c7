/** The circulating supply at a block: the total supply without what the lockup contracts and the
    foundation accounts hold. */
module CirculatingSupply {
  import opened Types
  import opened Lockup

  /** What the view client answers for one lockup account: its decoded state, and whether its code
      has the lockup-start bug; None is a failed query or an unknown code hash. */
  datatype Account = Account(state: Option<Contract>, hasBug: Option<bool>)

  datatype Supply = Supply(
    circulating: u128,
    total: u128,
    contracts: nat,
    unfinished: nat,
    foundation: u128,
    locked: u128)

  /** Faulty is arithmetic out of range: a panic, or a wrapped value, in the source. */
  datatype Result = Computed(supply: Supply) | Failed | Faulty

  /** Every token is circulating, with the foundation, or locked. */
  predicate Conserves(s: Supply) {
    s.total == s.circulating + s.foundation + s.locked
  }

  predicate Known(a: Account) {
    a.state.Some? && a.hasBug.Some?
  }

  function LockedOf(a: Account, now: u64): Checked {
    if Known(a) then Locked(WithTransfers(a.state.value), now, a.hasBug.value) else Fault
  }

  /** Every contract was found, and its locked amount is in range. */
  predicate AllAnswer(accounts: seq<Account>, now: u64) {
    forall a :: a in accounts ==> LockedOf(a, now).Value?
  }

  function Amount(a: Account, now: u64): nat {
    if LockedOf(a, now).Value? then LockedOf(a, now).v else 0
  }

  function LockedSum(accounts: seq<Account>, now: u64): nat {
    if accounts == [] then 0 else LockedSum(Front(accounts), now) + Amount(Last(accounts), now)
  }

  /** The contracts that still lock something. */
  function Unfinished(accounts: seq<Account>, now: u64): nat {
    if accounts == [] then 0
    else Unfinished(Front(accounts), now) + if Amount(Last(accounts), now) > 0 then 1 else 0
  }

  ghost predicate Sane(accounts: seq<Account>) {
    forall a :: a in accounts ==> Known(a) && Consistent(a.state.value)
  }

  /** What the outside answers about a block: the lockup accounts and the two foundation balances. */
  datatype Answers = Answers(accounts: Option<seq<Account>>, foundation: (Option<u128>, Option<u128>))

  predicate AllGiven(answers: Answers) {
    answers.accounts.Some? && answers.foundation.0.Some? && answers.foundation.1.Some?
  }

  datatype Sum = Sum(locked: u128, unfinished: nat) | NoAnswer | OutOfRange

  /** Adding up account by account; the first problem decides. */
  function AddUp(accounts: seq<Account>, now: u64): Sum {
    if accounts == [] then Sum(0, 0)
    else
      var a, front := Last(accounts), AddUp(Front(accounts), now);
      if !front.Sum? then front
      else if !Known(a) then NoAnswer
      else if LockedOf(a, now).Fault? || front.locked + Amount(a, now) >= TWO_TO_128 then OutOfRange
      else Sum(front.locked + Amount(a, now), front.unfinished + if Amount(a, now) > 0 then 1 else 0)
  }

  function Computation(total: u128, now: u64, answers: Answers): Result {
    if answers.accounts.None? then Failed
    else
      match AddUp(answers.accounts.value, now)
      case NoAnswer => Failed
      case OutOfRange => Faulty
      case Sum(locked, unfinished) =>
        var (lockup, contributors) := answers.foundation;
        if lockup.None? || contributors.None? then Failed
        else
          var held := lockup.value + contributors.value;
          if held >= TWO_TO_128 || total < held + locked then Faulty
          else Computed(Supply(total - held - locked, total, |answers.accounts.value|, unfinished, held, locked))
  }

  /** The accumulating loops. The two foundation balances are queried one after the other. */
  method ComputeCirculatingSupply(total: u128, now: u64, answers: Answers) returns (r: Result)
    ensures r == Computation(total, now, answers)
  {
    if answers.accounts.None? { return Failed; }
    var accounts := answers.accounts.value;
    var locked: u128, unfinished: nat := 0, 0;
    for i := 0 to |accounts|
      invariant AddUp(accounts[..i], now) == Sum(locked, unfinished)
    {
      var a := accounts[i];
      assert Front(accounts[..i + 1]) == accounts[..i];
      if !Known(a) {
        ProblemStays(accounts, now, i + 1);
        return Failed;
      }
      var checked := Locked(WithTransfers(a.state.value), now, a.hasBug.value);
      if checked.Fault? || locked + checked.v >= TWO_TO_128 {
        ProblemStays(accounts, now, i + 1);
        return Faulty;
      }
      locked := locked + checked.v;
      if checked.v > 0 { unfinished := unfinished + 1; }
    }
    assert accounts[..|accounts|] == accounts;
    var (lockup, contributors) := answers.foundation;
    if lockup.None? || contributors.None? { return Failed; }
    var held := lockup.value + contributors.value;
    if held >= TWO_TO_128 || total < held || total - held < locked { return Faulty; }
    r := Computed(Supply(total - held - locked, total, |accounts|, unfinished, held, locked));
  }

  lemma {:induction false} ProblemStays(accounts: seq<Account>, now: u64, i: nat)
    requires i <= |accounts| && !AddUp(accounts[..i], now).Sum?
    ensures AddUp(accounts, now) == AddUp(accounts[..i], now)
  {
    if i == |accounts| {
      assert accounts[..i] == accounts;
    } else {
      assert Front(accounts)[..i] == accounts[..i];
      ProblemStays(Front(accounts), now, i);
    }
  }

  /** Every amount is known, and the total covers what is held. */
  predicate Covers(total: u128, now: u64, accounts: seq<Account>, foundation: nat) {
    AllAnswer(accounts, now) && LockedSum(accounts, now) + foundation <= total
  }

  function SupplyAt(total: u128, now: u64, accounts: seq<Account>, foundation: nat): Supply
    requires Covers(total, now, accounts, foundation)
  {
    var locked := LockedSum(accounts, now);
    Supply(total - foundation - locked, total, |accounts|, Unfinished(accounts, now), foundation, locked)
  }

  lemma {:induction false} AddUpExactly(accounts: seq<Account>, now: u64)
    ensures AddUp(accounts, now).Sum? <==> AllAnswer(accounts, now) && LockedSum(accounts, now) < TWO_TO_128
    ensures AddUp(accounts, now).Sum? ==>
              AddUp(accounts, now) == Sum(LockedSum(accounts, now), Unfinished(accounts, now))
    ensures AddUp(accounts, now).NoAnswer? ==> exists a :: a in accounts && !Known(a)
  {
    if accounts != [] {
      AddUpExactly(Front(accounts), now);
      assert accounts == Front(accounts) + [Last(accounts)];
    }
  }

  /** One account: its own state, with the transfers enabled at their fixed moment, and its own bug
      flag decide. Until then all it holds is locked; a release without vesting is linear. */
  lemma AmountExactly(a: Account, now: u64)
    requires Known(a) && WellFormed(a.state.value)
    ensures var c := a.state.value;
            LockedOf(a, now) ==
            Locked(Contract(c.amount, c.withdrawn, c.lockupDuration, c.releaseDuration, c.lockupTimestamp,
                            Some(1602614338293769340), c.vesting), now, a.hasBug.value)
    ensures LockedOf(a, now) == Value(Amount(a, now))
    ensures now < 1602614338293769340 ==> Amount(a, now) == a.state.value.amount - a.state.value.withdrawn
    ensures AddUp([a], now) == Sum(Amount(a, now), if Amount(a, now) > 0 then 1 else 0)
  {
    var c := WithTransfers(a.state.value);
    NeverFaults(c, now, a.hasBug.value);
    TransfersBeforeUnlock(c, TRANSFERS_ENABLED);
    assert Front([a]) == [] && AddUp([], now) == Sum(0, 0);
    if now < TRANSFERS_ENABLED { LockedBefore(c, now, a.hasBug.value); }
  }

  lemma NothingToAdd(now: u64)
    ensures AddUp([], now) == Sum(0, 0) && LockedSum([], now) == 0 && Unfinished([], now) == 0
  {
  }

  /** A result needs every query to answer and the total to cover what is held, and nothing more; it
      then accounts for every token. A failure is reported only for a query that failed. */
  lemma ComputationExactly(total: u128, now: u64, answers: Answers)
    ensures Computation(total, now, answers).Computed? <==>
            && AllGiven(answers)
            && Covers(total, now, answers.accounts.value, answers.foundation.0.value + answers.foundation.1.value)
    ensures var r := Computation(total, now, answers);
            r.Computed? ==>
              && Conserves(r.supply)
              && r.supply == SupplyAt(total, now, answers.accounts.value,
                                      answers.foundation.0.value + answers.foundation.1.value)
    ensures var r := Computation(total, now, answers);
            r.Computed? ==>
              && r.supply.total == total && r.supply.contracts == |answers.accounts.value|
              && r.supply.foundation == answers.foundation.0.value + answers.foundation.1.value
              && r.supply.locked == LockedSum(answers.accounts.value, now)
              && r.supply.unfinished == Unfinished(answers.accounts.value, now)
    ensures Computation(total, now, answers).Failed? ==>
              !AllGiven(answers) || exists a :: a in answers.accounts.value && !Known(a)
  {
    if answers.accounts.Some? { AddUpExactly(answers.accounts.value, now); }
  }

  // ---- The result does not depend on the order of the contracts --------------------------------

  function Without(accounts: seq<Account>, i: nat): seq<Account>
    requires i < |accounts|
  {
    accounts[..i] + accounts[i + 1..]
  }

  lemma {:induction false} TakeOut(accounts: seq<Account>, now: u64, i: nat)
    requires i < |accounts|
    ensures var rest := Without(accounts, i);
            && LockedSum(accounts, now) == LockedSum(rest, now) + Amount(accounts[i], now)
            && Unfinished(accounts, now) == Unfinished(rest, now) + if Amount(accounts[i], now) > 0 then 1 else 0
  {
    var rest := Without(accounts, i);
    if i == |accounts| - 1 {
      assert rest == Front(accounts);
    } else {
      TakeOut(Front(accounts), now, i);
      assert Front(rest) == Without(Front(accounts), i);
      assert Last(rest) == Last(accounts);
    }
  }

  lemma MultisetWithout(accounts: seq<Account>, i: nat)
    requires i < |accounts|
    ensures multiset(accounts) == multiset(Without(accounts, i)) + multiset{accounts[i]}
  {
    assert accounts == accounts[..i] + [accounts[i]] + accounts[i + 1..];
  }

  lemma AnswersOfMultiset(accounts: seq<Account>, other: seq<Account>, now: u64)
    requires multiset(accounts) == multiset(other)
    ensures AllAnswer(accounts, now) ==> AllAnswer(other, now)
  {
    forall a | AllAnswer(accounts, now) && a in other ensures LockedOf(a, now).Value? {
      assert a in multiset(other);
      assert a in accounts;
    }
  }

  /** The last account of one order, found in the other. */
  lemma FindLast(accounts: seq<Account>, other: seq<Account>) returns (i: nat)
    requires accounts != [] && multiset(accounts) == multiset(other)
    ensures i < |other| && other[i] == Last(accounts)
    ensures multiset(Front(accounts)) == multiset(Without(other, i))
  {
    var last := |accounts| - 1;
    assert accounts[last] in multiset(accounts);
    i :| 0 <= i < |other| && other[i] == accounts[last];
    MultisetWithout(accounts, last);
    MultisetWithout(other, i);
    assert Without(accounts, last) == Front(accounts);
    assert multiset(Front(accounts)) == multiset(accounts) - multiset{accounts[last]} == multiset(Without(other, i));
  }

  lemma {:induction false} SumsOfMultiset(accounts: seq<Account>, other: seq<Account>, now: u64)
    requires multiset(accounts) == multiset(other)
    ensures LockedSum(accounts, now) == LockedSum(other, now)
    ensures Unfinished(accounts, now) == Unfinished(other, now)
  {
    if accounts == [] {
      assert |multiset(other)| == |other|;
    } else {
      var i := FindLast(accounts, other);
      SumsOfMultiset(Front(accounts), Without(other, i), now);
      TakeOut(other, now, i);
    }
  }

  lemma OrderDoesNotMatter(accounts: seq<Account>, other: seq<Account>, now: u64)
    requires multiset(accounts) == multiset(other)
    ensures LockedSum(accounts, now) == LockedSum(other, now)
    ensures Unfinished(accounts, now) == Unfinished(other, now)
    ensures AllAnswer(accounts, now) <==> AllAnswer(other, now)
    ensures |accounts| == |other|
  {
    SumsOfMultiset(accounts, other, now);
    AnswersOfMultiset(accounts, other, now);
    AnswersOfMultiset(other, accounts, now);
    assert |accounts| == |multiset(accounts)| == |multiset(other)| == |other|;
  }

  // ---- Over time -------------------------------------------------------------------------------

  lemma AmountFalls(a: Account, t0: u64, t1: u64)
    requires Known(a) && Consistent(a.state.value) && t0 <= t1
    ensures LockedOf(a, t0).Value? && LockedOf(a, t1).Value?
    ensures Amount(a, t1) <= Amount(a, t0)
  {
    var c, bug := WithTransfers(a.state.value), a.hasBug.value;
    NeverFaults(c, t0, bug);
    NeverFaults(c, t1, bug);
    ConsistentNeverIncreases(c, bug);
    assert Locked(c, t1, bug).v <= Locked(c, t0, bug).v;
  }

  /** The locked sum and the number of unfinished contracts only fall. */
  lemma {:induction false} LockedSumFalls(accounts: seq<Account>, t0: u64, t1: u64)
    requires Sane(accounts) && t0 <= t1
    ensures LockedSum(accounts, t1) <= LockedSum(accounts, t0)
    ensures Unfinished(accounts, t1) <= Unfinished(accounts, t0)
    ensures AllAnswer(accounts, t0) && AllAnswer(accounts, t1)
  {
    if accounts != [] {
      assert Last(accounts) in accounts && forall x :: x in Front(accounts) ==> x in accounts;
      LockedSumFalls(Front(accounts), t0, t1);
      AmountFalls(Last(accounts), t0, t1);
      assert accounts == Front(accounts) + [Last(accounts)];
    }
  }

  /** For fixed contracts, total and foundation balances, a supply that can be computed stays
      computable, and what circulates never decreases. */
  lemma CirculationNeverFalls(total: u128, accounts: seq<Account>, foundation: nat, t0: u64, t1: u64)
    requires Sane(accounts) && t0 <= t1 && Covers(total, t0, accounts, foundation)
    ensures Covers(total, t1, accounts, foundation)
    ensures SupplyAt(total, t0, accounts, foundation).circulating <=
              SupplyAt(total, t1, accounts, foundation).circulating
    ensures SupplyAt(total, t1, accounts, foundation).unfinished <= SupplyAt(total, t0, accounts, foundation).unfinished
  {
    LockedSumFalls(accounts, t0, t1);
  }
}
