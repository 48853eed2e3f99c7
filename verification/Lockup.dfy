/** The tokens a lockup contract still locks, in the fixed-width arithmetic of the source. */
module Lockup {
  import opened Types

  const U64_MAX: nat := 0xFFFF_FFFF_FFFF_FFFF
  const TWO_TO_64: nat := 0x1_0000_0000_0000_0000
  const TWO_TO_128: nat := 0x1_0000_0000_0000_0000_0000_0000_0000_0000
  const TWO_TO_192: nat := 0x1_0000_0000_0000_0000_0000_0000_0000_0000_0000_0000_0000_0000
  const TWO_TO_256: nat := 0x1_0000_0000_0000_0000_0000_0000_0000_0000_0000_0000_0000_0000_0000_0000_0000_0000

  /** The moment transfers were enabled on the main network, in nanoseconds. */
  const TRANSFERS_ENABLED: u64 := 1602614338293769340

  type u64 = x: nat | x < TWO_TO_64
  type u128 = x: nat | x < TWO_TO_128

  datatype VestingSchedule = VestingSchedule(start: u64, cliff: u64, end: u64)

  datatype Vesting =
    | NoVesting
    | PrivateVesting
    | PublicVesting(schedule: VestingSchedule)
    | Terminating(unvested: u128)

  datatype Contract = Contract(
    amount: u128,
    withdrawn: u128,                  // by the foundation, on early termination
    lockupDuration: u64,
    releaseDuration: Option<u64>,
    lockupTimestamp: Option<u64>,
    transfers: Option<u64>,           // when transfers were enabled, if they were
    vesting: Vesting)

  /** A value, or the arithmetic fault that stops the computation. */
  datatype Checked = Value(v: u128) | Fault

  function SaturatingAdd(a: u64, b: u64): u64 {
    if a + b > U64_MAX then U64_MAX else a + b
  }

  function SaturatingSub(a: u128, b: u128): u128 {
    if a < b then 0 else a - b
  }

  function Max(a: nat, b: nat): nat {
    if a < b then b else a
  }

  function Product(a: nat, b: nat): nat {
    a * b
  }

  /** amount * left / total in 256 bits, narrowed to 128. */
  function Share(amount: u128, left: u64, total: u64): Checked {
    var product := Product(amount, left);
    if total == 0 || product >= TWO_TO_256 || product / total >= TWO_TO_128 then Fault
    else Value(product / total)
  }

  function Unlocks(c: Contract, transfers: u64): u64 {
    Max(SaturatingAdd(transfers, c.lockupDuration), if c.lockupTimestamp.Some? then c.lockupTimestamp.value else 0)
  }

  function Unreleased(c: Contract, start: u64, now: u64): Checked {
    match c.releaseDuration
    case None => Value(0)
    case Some(duration) =>
      var end := SaturatingAdd(start, duration);
      if now >= end then Value(0) else Share(c.amount, end - now, duration)
  }

  function Unvested(c: Contract, s: VestingSchedule, now: u64): Checked {
    match c.vesting
    case Terminating(unvested) => Value(unvested)
    case NoVesting => Value(0)
    case _ =>
      if now < s.cliff then Value(c.amount)
      else if now >= s.end then Value(0)
      else if s.end < s.start then Fault
      else Share(c.amount, s.end - now, s.end - s.start)
  }

  /** What counts as unvested once the lockup has passed; private vesting is taken as finished. */
  function UnvestedNow(c: Contract, now: u64): Checked {
    match c.vesting
    case PublicVesting(s) => Unvested(c, s, now)
    case Terminating(unvested) => Value(unvested)
    case _ => Value(0)
  }

  /** The locked amount after the lockup timestamp. */
  function LockedAfter(c: Contract, transfers: u64, now: u64, hasBug: bool): Checked {
    var unreleased := Unreleased(c, if hasBug then transfers else Unlocks(c, transfers), now);
    var unvested := UnvestedNow(c, now);
    if unreleased.Fault? || unvested.Fault? then Fault
    else Value(Max(SaturatingSub(unreleased.v, c.withdrawn), unvested.v))
  }

  function Locked(c: Contract, now: u64, hasBug: bool): Checked {
    if c.transfers.Some? && Unlocks(c, c.transfers.value) <= now then LockedAfter(c, c.transfers.value, now, hasBug)
    else if c.withdrawn <= c.amount then Value(c.amount - c.withdrawn)
    else Fault
  }

  /** A public schedule is ordered, as the contract checks at its initialization, and the foundation
      has withdrawn no more than there was. */
  predicate WellFormed(c: Contract) {
    && c.withdrawn <= c.amount
    && (c.vesting.PublicVesting? ==> Ordered(c.vesting.schedule))
  }

  predicate Ordered(s: VestingSchedule) {
    s.start <= s.cliff && s.start < s.end
  }

  /** A public schedule has had nothing withdrawn; a termination leaves room for what it withdrew. */
  predicate Consistent(c: Contract) {
    && WellFormed(c)
    && (c.vesting.PublicVesting? ==> c.withdrawn == 0)
    && (c.vesting.Terminating? ==> c.vesting.unvested + c.withdrawn <= c.amount)
  }

  /** The state as it is used: whatever the contract says of the transfers is replaced. */
  function WithTransfers(decoded: Contract): Contract {
    decoded.(transfers := Some(TRANSFERS_ENABLED))
  }

  // ---- Exactness of a share --------------------------------------------------------------------

  lemma MulMono(a: nat, x: nat, y: nat)
    requires x <= y
    ensures a * x <= a * y
  {
  }

  lemma DivMono(x: nat, y: nat, d: nat)
    requires d > 0 && x <= y
    ensures x / d <= y / d
  {
    if x / d > y / d {
      MulMono(d, y / d + 1, x / d);
    }
  }

  lemma ProductFits(amount: u128, left: u64)
    ensures amount * left < TWO_TO_192
  {
    MulMono(amount, left, TWO_TO_64);
    MulMono(TWO_TO_64, amount, TWO_TO_128);
    if amount > 0 { assert amount * left < amount * TWO_TO_64; }
  }

  /** A share of a part no longer than the whole: the product fits in 192 bits, the quotient in the
      amount, and it is the greatest whole number of tokens not above the linear schedule. */
  lemma ShareExact(amount: u128, left: u64, total: u64)
    requires 0 < total && left <= total
    ensures amount * left < TWO_TO_192
    ensures Share(amount, left, total).Value?
    ensures var q := Share(amount, left, total).v;
            q <= amount && q * total <= amount * left < (q + 1) * total
  {
    MulMono(amount, left, total);
    ProductFits(amount, left);
    DivMono(amount * left, amount * total, total);
    assert amount * total / total == amount;
    var q := amount * left / total;
    assert amount * left == q * total + amount * left % total;
  }

  lemma ShareMono(amount: u128, left0: u64, left1: u64, total: u64)
    requires 0 < total && left0 <= left1 <= total
    ensures Share(amount, left0, total).Value? && Share(amount, left1, total).Value?
    ensures Share(amount, left0, total).v <= Share(amount, left1, total).v
  {
    ShareExact(amount, left0, total);
    ShareExact(amount, left1, total);
    MulMono(amount, left0, left1);
    DivMono(amount * left0, amount * left1, total);
  }

  // ---- The locked amount over time -------------------------------------------------------------

  lemma UnreleasedFalls(c: Contract, start: u64, t0: u64, t1: u64)
    requires start <= t0 <= t1
    ensures Unreleased(c, start, t0).Value? && Unreleased(c, start, t1).Value?
    ensures Unreleased(c, start, t1).v <= Unreleased(c, start, t0).v <= c.amount
  {
    if c.releaseDuration.Some? {
      var duration := c.releaseDuration.value;
      var end := SaturatingAdd(start, duration);
      if t0 < end { ShareExact(c.amount, end - t0, duration); }
      if t1 < end { ShareMono(c.amount, end - t1, end - t0, duration); }
    }
  }

  lemma UnvestedFalls(c: Contract, t0: u64, t1: u64)
    requires WellFormed(c) && t0 <= t1
    ensures UnvestedNow(c, t0).Value? && UnvestedNow(c, t1).Value?
    ensures UnvestedNow(c, t1).v <= UnvestedNow(c, t0).v
    ensures c.vesting.PublicVesting? ==> UnvestedNow(c, t0).v <= c.amount
  {
    if c.vesting.PublicVesting? {
      var s := c.vesting.schedule;
      if s.cliff <= t0 < s.end { ShareExact(c.amount, s.end - t0, s.end - s.start); }
      if s.cliff <= t1 < s.end { ShareExact(c.amount, s.end - t1, s.end - s.start); }
      if s.cliff <= t0 && t1 < s.end { ShareMono(c.amount, s.end - t1, s.end - t0, s.end - s.start); }
    }
  }

  lemma TransfersBeforeUnlock(c: Contract, transfers: u64)
    ensures transfers <= Unlocks(c, transfers)
  {
  }

  lemma LockedAfterFalls(c: Contract, transfers: u64, t0: u64, t1: u64, hasBug: bool)
    requires WellFormed(c) && Unlocks(c, transfers) <= t0 <= t1
    ensures LockedAfter(c, transfers, t0, hasBug).Value? && LockedAfter(c, transfers, t1, hasBug).Value?
    ensures LockedAfter(c, transfers, t1, hasBug).v <= LockedAfter(c, transfers, t0, hasBug).v
  {
    TransfersBeforeUnlock(c, transfers);
    UnreleasedFalls(c, if hasBug then transfers else Unlocks(c, transfers), t0, t1);
    UnvestedFalls(c, t0, t1);
  }

  /** For a well-formed contract the computation never divides by zero, underflows or overflows. */
  lemma NeverFaults(c: Contract, now: u64, hasBug: bool)
    requires WellFormed(c)
    ensures Locked(c, now, hasBug).Value?
  {
    if c.transfers.Some? && Unlocks(c, c.transfers.value) <= now {
      LockedAfterFalls(c, c.transfers.value, now, now, hasBug);
    }
  }

  /** The locked amount never exceeds what the lockup still holds. */
  lemma NeverExceeds(c: Contract, now: u64, hasBug: bool)
    requires Consistent(c)
    ensures Locked(c, now, hasBug).Value? && Locked(c, now, hasBug).v <= c.amount - c.withdrawn
  {
    if c.transfers.Some? && Unlocks(c, c.transfers.value) <= now {
      TransfersBeforeUnlock(c, c.transfers.value);
      UnreleasedFalls(c, if hasBug then c.transfers.value else Unlocks(c, c.transfers.value), now, now);
      UnvestedFalls(c, now, now);
    }
  }

  ghost predicate NeverIncreases(c: Contract, hasBug: bool) {
    forall t0: u64, t1: u64 :: t0 <= t1 && Locked(c, t0, hasBug).Value? && Locked(c, t1, hasBug).Value? ==>
      Locked(c, t1, hasBug).v <= Locked(c, t0, hasBug).v
  }

  lemma FallsWhenUnlockDoes(c: Contract, t0: u64, t1: u64, hasBug: bool)
    requires WellFormed(c) && c.transfers.Some? && t0 <= t1
    requires var unlock := Unlocks(c, c.transfers.value);
             unlock == 0
             || (LockedAfter(c, c.transfers.value, unlock, hasBug).Value?
                 && LockedAfter(c, c.transfers.value, unlock, hasBug).v <= c.amount - c.withdrawn)
    ensures Locked(c, t0, hasBug).Value? && Locked(c, t1, hasBug).Value?
    ensures Locked(c, t1, hasBug).v <= Locked(c, t0, hasBug).v
  {
    var transfers := c.transfers.value;
    var unlock := Unlocks(c, transfers);
    if unlock <= t0 {
      LockedAfterFalls(c, transfers, t0, t1, hasBug);
    } else if unlock <= t1 {
      LockedAfterFalls(c, transfers, unlock, t1, hasBug);
    }
  }

  /** What is unvested at `unlock` fits into what the withdrawals left: nothing was withdrawn, or the
      schedule is then past its cliff and, unless it has ended, far enough along. */
  predicate Room(c: Contract, unlock: u64) {
    match c.vesting
    case NoVesting => true
    case PrivateVesting => true
    case Terminating(unvested) => unvested + c.withdrawn <= c.amount
    case PublicVesting(s) =>
      || c.withdrawn == 0
      || (s.cliff <= unlock
          && (s.end <= unlock || c.amount * (s.end - unlock) < (c.amount - c.withdrawn + 1) * (s.end - s.start)))
  }

  /** A floored share is within a bound exactly when the product is below the next multiple. */
  lemma ShareWithin(amount: u128, left: u64, total: u64, bound: nat)
    requires 0 < total && left <= total
    ensures Share(amount, left, total).Value?
    ensures Share(amount, left, total).v <= bound <==> amount * left < (bound + 1) * total
  {
    ShareExact(amount, left, total);
    var q := Share(amount, left, total).v;
    if q <= bound { MulMono(total, q + 1, bound + 1); } else { MulMono(total, bound + 1, q); }
  }

  lemma RoomExactly(c: Contract, transfers: u64, hasBug: bool)
    requires WellFormed(c)
    ensures var unlock := Unlocks(c, transfers);
            && LockedAfter(c, transfers, unlock, hasBug).Value?
            && (LockedAfter(c, transfers, unlock, hasBug).v <= c.amount - c.withdrawn <==> Room(c, unlock))
  {
    var unlock := Unlocks(c, transfers);
    TransfersBeforeUnlock(c, transfers);
    UnreleasedFalls(c, if hasBug then transfers else unlock, unlock, unlock);
    UnvestedFalls(c, unlock, unlock);
    if c.vesting.PublicVesting? {
      var s := c.vesting.schedule;
      if s.cliff <= unlock < s.end {
        ShareWithin(c.amount, s.end - unlock, s.end - s.start, c.amount - c.withdrawn);
      }
    }
  }

  /** Only passing the lockup timestamp could raise the amount; releases, cliffs and ends never do. */
  lemma UnlockDecides(c: Contract, hasBug: bool)
    requires WellFormed(c) && c.transfers.Some?
    ensures var unlock := Unlocks(c, c.transfers.value);
            && LockedAfter(c, c.transfers.value, unlock, hasBug).Value?
            && (NeverIncreases(c, hasBug) <==>
                unlock == 0 || LockedAfter(c, c.transfers.value, unlock, hasBug).v <= c.amount - c.withdrawn)
  {
    var transfers := c.transfers.value;
    var unlock := Unlocks(c, transfers);
    LockedAfterFalls(c, transfers, unlock, unlock, hasBug);
    if unlock == 0 || LockedAfter(c, transfers, unlock, hasBug).v <= c.amount - c.withdrawn {
      forall t0: u64, t1: u64 | t0 <= t1
        ensures Locked(c, t0, hasBug).Value? && Locked(c, t1, hasBug).Value?
        ensures Locked(c, t1, hasBug).v <= Locked(c, t0, hasBug).v
      {
        FallsWhenUnlockDoes(c, t0, t1, hasBug);
      }
    } else {
      var before: u64 := unlock - 1;
      assert Locked(c, before, hasBug).v < Locked(c, unlock, hasBug).v;
    }
  }

  /** For a well-formed contract the amount never increases with time exactly when there is room at
      the lockup timestamp, or no moment before it. */
  lemma NeverIncreasesExactly(c: Contract, hasBug: bool)
    requires WellFormed(c)
    ensures NeverIncreases(c, hasBug) <==>
            (c.transfers.Some? ==> var unlock := Unlocks(c, c.transfers.value); unlock == 0 || Room(c, unlock))
  {
    if c.transfers.Some? {
      UnlockDecides(c, hasBug);
      RoomExactly(c, c.transfers.value, hasBug);
    }
  }

  /** For the states the indexer uses the transfers timestamp is always set, and late enough. */
  lemma DecodedNeverIncreasesExactly(decoded: Contract, hasBug: bool)
    requires WellFormed(decoded)
    ensures NeverIncreases(WithTransfers(decoded), hasBug) <==> Room(decoded, Unlocks(decoded, TRANSFERS_ENABLED))
  {
    NeverIncreasesExactly(WithTransfers(decoded), hasBug);
    TransfersBeforeUnlock(decoded, TRANSFERS_ENABLED);
  }

  /** A consistent contract has room, so its locked amount never increases. */
  lemma ConsistentNeverIncreases(c: Contract, hasBug: bool)
    requires Consistent(c)
    ensures NeverIncreases(c, hasBug)
  {
    NeverIncreasesExactly(c, hasBug);
  }

  /** Without room it does increase: a public schedule not yet past its cliff, from which tokens were
      withdrawn, locks 6 until the lockup timestamp and 10 from then on. */
  lemma WithdrawnScheduleIncreases(hasBug: bool)
    ensures var schedule := VestingSchedule(TRANSFERS_ENABLED - 100, TRANSFERS_ENABLED + 200, TRANSFERS_ENABLED + 300);
            var decoded := Contract(10, 4, 0, None, None, None, PublicVesting(schedule));
            && WellFormed(decoded)
            && Locked(WithTransfers(decoded), TRANSFERS_ENABLED - 1, hasBug) == Value(6)
            && Locked(WithTransfers(decoded), TRANSFERS_ENABLED, hasBug) == Value(10)
  {
  }

  /** While a termination is in progress its unvested tokens stay locked. */
  lemma TerminatingKeepsUnvested(c: Contract, now: u64, hasBug: bool)
    requires Consistent(c) && c.vesting.Terminating?
    ensures Locked(c, now, hasBug).Value? && Locked(c, now, hasBug).v >= c.vesting.unvested
  {
    NeverFaults(c, now, hasBug);
  }

  /** The contracts with the bug start the release at the transfers timestamp, so they never lock
      more than the fixed ones, and as much when the lockup starts then too. */
  lemma BugNeverLocksMore(c: Contract, now: u64)
    requires WellFormed(c)
    ensures Locked(c, now, true).Value? && Locked(c, now, false).Value?
    ensures Locked(c, now, true).v <= Locked(c, now, false).v
    ensures c.transfers.Some? && Unlocks(c, c.transfers.value) == c.transfers.value ==>
              Locked(c, now, true) == Locked(c, now, false)
  {
    NeverFaults(c, now, true);
    NeverFaults(c, now, false);
    if c.transfers.Some? && Unlocks(c, c.transfers.value) <= now && c.releaseDuration.Some? {
      var transfers, unlock, duration := c.transfers.value, Unlocks(c, c.transfers.value), c.releaseDuration.value;
      TransfersBeforeUnlock(c, transfers);
      UnreleasedFalls(c, transfers, now, now);
      UnreleasedFalls(c, unlock, now, now);
      if now < SaturatingAdd(transfers, duration) {
        ShareMono(c.amount, SaturatingAdd(transfers, duration) - now, SaturatingAdd(unlock, duration) - now, duration);
      }
    }
  }

  /** Once the release and the public vesting are over, and unless a termination is in progress,
      nothing is locked. */
  lemma EverythingUnlocks(c: Contract, now: u64, hasBug: bool)
    requires WellFormed(c) && c.transfers.Some? && Unlocks(c, c.transfers.value) <= now
    requires c.releaseDuration.Some? ==> SaturatingAdd(Unlocks(c, c.transfers.value), c.releaseDuration.value) <= now
    requires c.vesting.PublicVesting? ==> c.vesting.schedule.end <= now && c.vesting.schedule.cliff <= now
    requires !c.vesting.Terminating?
    ensures Locked(c, now, hasBug) == Value(0)
  {
    TransfersBeforeUnlock(c, c.transfers.value);
  }

  // ---- How much is locked, and when ------------------------------------------------------------

  /** The lockup lasts until the duration after the transfers and the lockup timestamp have passed, but
      never beyond the last moment there is. */
  lemma UnlocksExactly(c: Contract, transfers: u64, now: u64)
    ensures now < Unlocks(c, transfers) <==>
            || (now < transfers + c.lockupDuration && now < U64_MAX)
            || (c.lockupTimestamp.Some? && now < c.lockupTimestamp.value)
  {
  }

  /** Until then, or while transfers are not enabled, all that was not withdrawn is locked. */
  lemma LockedBefore(c: Contract, now: u64, hasBug: bool)
    requires WellFormed(c) && (c.transfers.Some? ==> now < Unlocks(c, c.transfers.value))
    ensures Locked(c, now, hasBug) == Value(c.amount - c.withdrawn)
  {
  }

  /** Contracts with the bug begin the release with the transfers. */
  function ReleaseStart(c: Contract, transfers: u64, hasBug: bool): u64 {
    if hasBug then transfers else Unlocks(c, transfers)
  }

  /** From then on, without vesting: the withdrawn tokens count towards the release, and of the rest the
      greatest whole number not above the linear schedule is locked. */
  lemma LinearRelease(c: Contract, now: u64, hasBug: bool, transfers: u64, duration: u64, end: nat)
    requires c.transfers == Some(transfers) && c.releaseDuration == Some(duration)
    requires c.vesting.NoVesting? || c.vesting.PrivateVesting?
    requires Unlocks(c, transfers) <= now
    requires var whole := ReleaseStart(c, transfers, hasBug) + duration;
             end == if whole <= U64_MAX then whole else U64_MAX
    ensures Locked(c, now, hasBug).Value?
    ensures var v := Locked(c, now, hasBug).v;
            && (end <= now ==> v == 0)
            && (now < end && v > 0 ==>
                  (v + c.withdrawn) * duration <= c.amount * (end - now) < (v + c.withdrawn + 1) * duration)
            && (now < end && v == 0 ==> c.amount * (end - now) < (c.withdrawn + 1) * duration)
  {
    TransfersBeforeUnlock(c, transfers);
    ReleaseAt(c, ReleaseStart(c, transfers, hasBug), now, duration, end);
    if now < end {
      AfterWithdrawal(Unreleased(c, ReleaseStart(c, transfers, hasBug), now).v, c.withdrawn, duration,
          c.amount * (end - now));
    }
  }

  lemma ReleaseAt(c: Contract, start: u64, now: u64, duration: u64, end: nat)
    requires c.releaseDuration == Some(duration) && start <= now
    requires end == if start + duration <= U64_MAX then start + duration else U64_MAX
    ensures Unreleased(c, start, now).Value?
    ensures end <= now ==> Unreleased(c, start, now).v == 0
    ensures now < end ==>
              var q := Unreleased(c, start, now).v;
              q * duration <= c.amount * (end - now) < (q + 1) * duration
  {
    if now < end { ShareExact(c.amount, end - now, duration); }
  }

  /** What a withdrawal leaves of a share. */
  lemma AfterWithdrawal(share: u128, withdrawn: u128, duration: nat, product: nat)
    requires share * duration <= product < (share + 1) * duration
    ensures var v := SaturatingSub(share, withdrawn);
            && (v > 0 ==> (v + withdrawn) * duration <= product < (v + withdrawn + 1) * duration)
            && (v == 0 ==> product < (withdrawn + 1) * duration)
  {
    if share <= withdrawn { MulMono(duration, share + 1, withdrawn + 1); }
  }

  /** Without a release, the vesting decides: a public schedule locks everything before its cliff, the
      greatest whole number not above the linear schedule after it, and nothing from its end on. */
  lemma LinearVesting(c: Contract, now: u64, hasBug: bool, s: VestingSchedule)
    requires WellFormed(c) && c.vesting == PublicVesting(s) && c.releaseDuration.None?
    requires c.transfers.Some? && Unlocks(c, c.transfers.value) <= now
    ensures Locked(c, now, hasBug).Value?
    ensures var v := Locked(c, now, hasBug).v;
            && (now < s.cliff ==> v == c.amount)
            && (s.cliff <= now && s.end <= now ==> v == 0)
            && (s.cliff <= now < s.end ==>
                  v * (s.end - s.start) <= c.amount * (s.end - now) < (v + 1) * (s.end - s.start))
  {
    if s.cliff <= now < s.end { ShareExact(c.amount, s.end - now, s.end - s.start); }
  }

  lemma OtherVesting(c: Contract, now: u64, hasBug: bool)
    requires c.releaseDuration.None? && !c.vesting.PublicVesting?
    requires c.transfers.Some? && Unlocks(c, c.transfers.value) <= now
    ensures Locked(c, now, hasBug) == Value(if c.vesting.Terminating? then c.vesting.unvested else 0)
  {
  }

  /** With a release and a vesting, the larger of the two amounts is locked. */
  lemma LockedIsLarger(c: Contract, now: u64, hasBug: bool)
    requires WellFormed(c) && c.transfers.Some? && Unlocks(c, c.transfers.value) <= now
    ensures var released := Locked(c.(vesting := NoVesting), now, hasBug);
            var vested := Locked(c.(releaseDuration := None), now, hasBug);
            && released.Value? && vested.Value?
            && Locked(c, now, hasBug) == Value(if released.v < vested.v then vested.v else released.v)
  {
    NeverFaults(c, now, hasBug);
    NeverFaults(c.(vesting := NoVesting), now, hasBug);
    NeverFaults(c.(releaseDuration := None), now, hasBug);
    assert Unlocks(c.(vesting := NoVesting), c.transfers.value) == Unlocks(c, c.transfers.value);
    assert Unlocks(c.(releaseDuration := None), c.transfers.value) == Unlocks(c, c.transfers.value);
  }
}
