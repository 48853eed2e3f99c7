/** The bounded retry loop around every storage query. */
module Retry {

  /** What one attempt answers: an error may be one the caller takes as handled. */
  datatype Answer = Ok | Expected | Error

  datatype Outcome = Success | Handled | GaveUp

  /** An attempt, by its number, changes the state it finds and answers. */
  type Query<!S> = (S, nat) -> (S, Answer)

  // Milliseconds.
  const INTERVAL: nat := 100
  const MAX_DELAY_TIME: nat := 120_000

  /** The state before attempt `n`, when every earlier one was made. */
  function Before<S>(query: Query<S>, s: S, n: nat): S {
    if n == 0 then s else query(Before(query, s, n - 1), n - 1).0
  }

  function AnswerTo<S>(query: Query<S>, s: S, n: nat): Answer {
    query(Before(query, s, n), n).1
  }

  predicate AllFail<S>(query: Query<S>, s: S, n: nat) {
    forall k :: 0 <= k < n ==> AnswerTo(query, s, k) == Error
  }

  function Settles(a: Answer): Outcome
    requires a != Error
  {
    if a == Ok then Success else Handled
  }

  function Min(a: nat, b: nat): nat {
    if a < b then a else b
  }

  function Power2(n: nat): nat {
    if n == 0 then 1 else 2 * Power2(n - 1)
  }

  /** The pause after `n` failures: it doubles until it has passed the maximum. */
  function Interval(n: nat): nat {
    INTERVAL * Power2(Min(n, 11))
  }

  function Waited(n: nat): nat {
    if n == 0 then 0 else Waited(n - 1) + Interval(n - 1)
  }

  /** The outcome of at most `retries` attempts, of which `made` failed. */
  function Await<S>(query: Query<S>, s: S, made: nat, retries: nat): (S, Outcome)
    requires made <= retries
    decreases retries - made
  {
    if made == retries then (s, GaveUp)
    else
      var (next, answer) := query(s, made);
      if answer == Error then Await(query, next, made + 1, retries) else (next, Settles(answer))
  }

  method AwaitRetry<S>(query: Query<S>, s: S, retries: nat)
      returns (state: S, outcome: Outcome, failed: nat, waited: nat)
    ensures (state, outcome) == Await(query, s, 0, retries)
    // The first answer that is no error decides; without one, all attempts were made.
    ensures failed <= retries && AllFail(query, s, failed)
    ensures outcome == GaveUp <==> failed == retries
    ensures outcome != GaveUp ==>
              && AnswerTo(query, s, failed) != Error && outcome == Settles(AnswerTo(query, s, failed))
              && state == Before(query, s, failed + 1)
    ensures outcome == GaveUp ==> state == Before(query, s, retries)
    ensures waited == Waited(failed)
  {
    var interval := INTERVAL;
    failed, waited, state := 0, 0, s;
    while failed < retries
      invariant failed <= retries
      invariant Await(query, s, 0, retries) == Await(query, state, failed, retries)
      invariant AllFail(query, s, failed) && state == Before(query, s, failed)
      invariant interval == Interval(failed) && waited == Waited(failed)
    {
      var (next, answer) := query(state, failed);
      assert AnswerTo(query, s, failed) == answer && Before(query, s, failed + 1) == next;
      state := next;
      if answer != Error { return state, Settles(answer), failed, waited; }
      waited := waited + interval;
      IntervalStep(failed);
      if interval < MAX_DELAY_TIME { interval := interval * 2; }
      failed := failed + 1;
    }
    outcome := GaveUp;
  }

  lemma {:induction false} PowerMono(m: nat, n: nat)
    requires m <= n
    ensures Power2(m) <= Power2(n)
  {
    if m < n { PowerMono(m, n - 1); }
  }

  lemma IntervalStep(n: nat)
    ensures Interval(n + 1) == if Interval(n) < MAX_DELAY_TIME then Interval(n) * 2 else Interval(n)
    ensures Interval(n) <= 204_800
  {
    assert Power2(10) == 1024 && Power2(11) == 2048;
    PowerMono(Min(n, 11), if n < 11 then 10 else 11);
  }

  /** Ten failures wait 102.3 seconds in all; later ones may each wait beyond the stated maximum. */
  lemma {:induction false} WaitedInAll(n: nat)
    ensures n <= 11 ==> Waited(n) == INTERVAL * (Power2(n) - 1)
    ensures n >= 11 ==> Interval(n) == 204_800 > MAX_DELAY_TIME
  {
    assert Power2(11) == 2048;
    if n > 0 { WaitedInAll(n - 1); }
  }
}
