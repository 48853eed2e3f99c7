/** The daily computation: which day comes next, and which block each day's row is for. Moments are
    nanoseconds since the epoch. */
module DailyScheduler {
  import opened Types
  import opened CirculatingSupply
  import opened Lockup

  const SECOND: nat := 1_000_000_000
  const SECONDS_A_DAY: nat := 86_400
  const DAY: nat := 86_400_000_000_000

  /** Ten minutes into the day after transfers were enabled; only whole seconds are cut off. */
  const FIRST_DAY: nat :=
    TRANSFERS_ENABLED - TRANSFERS_ENABLED / SECOND % SECONDS_A_DAY * SECOND + DAY + 600 * SECOND

  /** 2020-10-14 00:00:00 UTC. */
  const FIRST_MIDNIGHT: nat := 1602633600_000_000_000

  datatype ChainBlock = ChainBlock(hash: Hash, timestamp: u64, total: u128)

  datatype SupplyRow = SupplyRow(timestamp: u64, supply: Supply)

  /** The rows under their primary key, the block hash. */
  type Table = map<Hash, SupplyRow>

  /** What the outside answers one attempt: the blocks table, whether the query for an earlier row
      works, and the lockups and balances at a block. The order of `blocks` stands for the order the
      database meets them in. */
  datatype Attempt = Attempt(blocks: Option<seq<ChainBlock>>, supplyQueryWorks: bool, answers: ChainBlock -> Answers)

  /** A fault stops the loop for good. */
  datatype Verdict = Done | Again | Stop

  datatype State = State(day: nat, table: Table, running: bool)

  /** `as u64` keeps the low 64 bits. */
  function StartOfDay(day: nat): nat {
    (day - day % DAY) % TWO_TO_64
  }

  /** The first row of the blocks up to `t` by descending timestamp. */
  function Latest(blocks: seq<ChainBlock>, t: nat): Option<ChainBlock> {
    if blocks == [] then None
    else
      var b, best := Last(blocks), Latest(Front(blocks), t);
      if b.timestamp <= t && (best.None? || best.value.timestamp < b.timestamp) then Some(b) else best
  }

  predicate Precomputed(table: Table, timestamp: nat) {
    exists h :: h in table && table[h].timestamp == timestamp
  }

  /** Insert, on conflict do nothing. */
  function Insert(table: Table, b: ChainBlock, supply: Supply): Table {
    if b.hash in table then table else table[b.hash := SupplyRow(b.timestamp, supply)]
  }

  /** What one attempt makes of the table. */
  function Collect(table: Table, day: nat, a: Attempt): (Table, Verdict) {
    if a.blocks.None? then (table, Again)
    else
      var latest := Latest(a.blocks.value, StartOfDay(day));
      if latest.None? || !a.supplyQueryWorks then (table, Again)
      else
        var b := latest.value;
        if Precomputed(table, b.timestamp) then (table, Done)
        else
          match Computation(b.total, b.timestamp, a.answers(b))
          case Computed(supply) => (Insert(table, b, supply), Done)
          case Failed => (table, Again)
          case Faulty => (table, Stop)
  }

  function Step(s: State, a: Attempt): State {
    if !s.running then s
    else
      var (table, verdict) := Collect(s.table, s.day, a);
      State(if verdict.Done? then s.day + DAY else s.day, table, !verdict.Stop?)
  }

  function Reached(s: State, attempts: seq<Attempt>): State {
    if attempts == [] then s else Step(Reached(s, Front(attempts)), Last(attempts))
  }

  /** Where the loop begins. */
  function Begin(rows: Table): State {
    State(FIRST_DAY, rows, true)
  }

  /** The state of the endless loop. */
  class Scheduler {
    var day: nat
    var table: Table
    var running: bool

    constructor (rows: Table)
      ensures Now() == Begin(rows)
    {
      day, table, running := FIRST_DAY, rows, true;
    }

    function Now(): State
      reads this
    {
      State(day, table, running)
    }

    method CheckAndCollect(a: Attempt) returns (verdict: Verdict)
      modifies this`table
      ensures (table, verdict) == Collect(old(table), day, a)
    {
      if a.blocks.None? { return Again; }
      var latest := Latest(a.blocks.value, StartOfDay(day));
      if latest.None? || !a.supplyQueryWorks { return Again; }
      var b := latest.value;
      if Precomputed(table, b.timestamp) { return Done; }
      var r := ComputeCirculatingSupply(b.total, b.timestamp, a.answers(b));
      match r
      case Computed(supply) =>
        if b.hash !in table { table := table[b.hash := SupplyRow(b.timestamp, supply)]; }
        return Done;
      case Failed => return Again;
      case Faulty => return Stop;
    }

    /** The loop, as far as `attempts` go: a success moves on by a day, a failure tries again. */
    method Run(attempts: seq<Attempt>)
      modifies this
      ensures Now() == Reached(old(Now()), attempts)
    {
      for i := 0 to |attempts|
        invariant Now() == Reached(old(Now()), attempts[..i])
      {
        assert Front(attempts[..i + 1]) == attempts[..i];
        if running {
          var verdict := CheckAndCollect(attempts[i]);
          match verdict
          case Done => day := day + DAY;
          case Again =>
          case Stop => running := false;
        }
      }
      assert attempts[..|attempts|] == attempts;
    }
  }

  // ---- The days --------------------------------------------------------------------------------

  lemma AddOnce(x: nat, d: nat)
    requires d > 0
    ensures (x + d) % d == x % d
  {
    var p, q := (x + d) / d, x / d + 1;
    assert x + d == d * q + x % d;
    assert x + d == d * p + (x + d) % d;
    assert d * (p - q) == x % d - (x + d) % d;
    Gap(d, p - q);
  }

  lemma Gap(d: int, n: int)
    requires d > 0
    ensures n >= 1 ==> d * n >= d
    ensures n <= -1 ==> d * n <= -d
  {
    if n >= 1 {
      assert d * n == d + d * (n - 1);
    } else if n <= -1 {
      assert d * n == d * (n + 1) - d;
    }
  }

  function Later(first: nat, step: nat, k: nat): nat {
    if k == 0 then first else Later(first, step, k - 1) + step
  }

  lemma {:induction false} LaterIs(first: nat, step: nat, k: nat)
    requires step > 0
    ensures Later(first, step, k) == first + k * step
    ensures Later(first, step, k) % step == first % step
  {
    if k > 0 {
      LaterIs(first, step, k - 1);
      AddOnce(Later(first, step, k - 1), step);
      assert k * step == (k - 1) * step + step;
    }
  }

  lemma FirstDayIs()
    ensures FIRST_DAY == FIRST_MIDNIGHT + 600_293_769_340
    ensures FIRST_DAY % DAY == 600_293_769_340
  {
    assert TRANSFERS_ENABLED / SECOND == 1_602_614_338;
    assert 1_602_614_338 % SECONDS_A_DAY == 67_138;
    assert FIRST_DAY == DAY * 18_549 + 600_293_769_340;
  }

  function DayAt(k: nat): nat {
    Later(FIRST_DAY, DAY, k)
  }

  lemma DayAtIs(k: nat)
    ensures DayAt(k) == FIRST_DAY + k * DAY
    ensures DayAt(k) % DAY == 600_293_769_340
  {
    FirstDayIs();
    LaterIs(FIRST_DAY, DAY, k);
  }

  predicate Succeeds(s: State, a: Attempt) {
    s.running && Collect(s.table, s.day, a).1.Done?
  }

  /** How many days were passed. */
  function Passed(s: State, attempts: seq<Attempt>): nat {
    if attempts == [] then 0
    else Passed(s, Front(attempts)) + if Succeeds(Reached(s, Front(attempts)), Last(attempts)) then 1 else 0
  }

  lemma {:induction false} DaysFollow(rows: Table, attempts: seq<Attempt>)
    ensures Reached(Begin(rows), attempts).day == DayAt(Passed(Begin(rows), attempts))
  {
    if attempts != [] { DaysFollow(rows, Front(attempts)); }
  }

  /** The day is always the first one plus the successes: none is skipped and none repeated. It
      stays 600.293769340 seconds past a midnight. */
  lemma DaysInStep(rows: Table, attempts: seq<Attempt>)
    ensures Reached(Begin(rows), attempts).day == FIRST_DAY + Passed(Begin(rows), attempts) * DAY
    ensures Reached(Begin(rows), attempts).day % DAY == 600_293_769_340
  {
    DaysFollow(rows, attempts);
    DayAtIs(Passed(Begin(rows), attempts));
  }

  /** The moment day `k` asks for is the midnight that starts it, exactly as long as that fits
      in 64 bits. */
  lemma MidnightExactly(k: nat)
    ensures StartOfDay(DayAt(k)) == FIRST_MIDNIGHT + k * DAY <==> FIRST_MIDNIGHT + k * DAY < TWO_TO_64
  {
    DayAtIs(k);
    FirstDayIs();
    StartsAt(DayAt(k), FIRST_MIDNIGHT + k * DAY);
  }

  lemma StartsAt(day: nat, midnight: nat)
    requires day == midnight + day % DAY
    ensures StartOfDay(day) == midnight <==> midnight < TWO_TO_64
  {
  }

  // ---- The rows --------------------------------------------------------------------------------

  ghost predicate IsLatest(blocks: iset<ChainBlock>, t: nat, b: ChainBlock) {
    b in blocks && b.timestamp <= t && forall c :: c in blocks && c.timestamp <= t ==> c.timestamp <= b.timestamp
  }

  lemma {:induction false} LatestIsLatest(blocks: seq<ChainBlock>, t: nat)
    ensures var latest, all := Latest(blocks, t), iset b | b in blocks;
            && (latest.Some? ==> IsLatest(all, t, latest.value))
            && (latest.None? ==> forall b :: b in blocks ==> t < b.timestamp)
  {
    if blocks != [] {
      LatestIsLatest(Front(blocks), t);
      assert blocks == Front(blocks) + [Last(blocks)];
    }
  }

  predicate UniqueTimestamps(table: Table) {
    forall g, h :: g in table && h in table && table[g].timestamp == table[h].timestamp ==> g == h
  }

  predicate Extends(old_: Table, new_: Table) {
    forall h :: h in old_ ==> h in new_ && new_[h] == old_[h]
  }

  /** Whatever the outside answers, no run changes or drops a row, or stores a timestamp twice. */
  lemma {:induction false} RowsAreKept(s: State, attempts: seq<Attempt>)
    ensures Extends(s.table, Reached(s, attempts).table)
    ensures UniqueTimestamps(s.table) ==> UniqueTimestamps(Reached(s, attempts).table)
  {
    if attempts != [] { RowsAreKept(s, Front(attempts)); }
  }

  predicate RowsConserve(table: Table) {
    forall h :: h in table ==> Conserves(table[h].supply)
  }

  /** Every row of a run accounts for all tokens of its block. */
  lemma {:induction false} StoredRowsConserve(s: State, attempts: seq<Attempt>)
    requires RowsConserve(s.table)
    ensures RowsConserve(Reached(s, attempts).table)
  {
    if attempts != [] {
      StoredRowsConserve(s, Front(attempts));
      var before, a := Reached(s, Front(attempts)), Last(attempts);
      if a.blocks.Some? {
        var latest := Latest(a.blocks.value, StartOfDay(before.day));
        if latest.Some? {
          ComputationExactly(latest.value.total, latest.value.timestamp, a.answers(latest.value));
        }
      }
    }
  }

  predicate HasRow(table: Table, b: ChainBlock) {
    b.hash in table && table[b.hash].timestamp == b.timestamp
  }

  /** The block of a successful attempt. */
  function Target(day: nat, a: Attempt): ChainBlock
    requires a.blocks.Some? && Latest(a.blocks.value, StartOfDay(day)).Some?
  {
    Latest(a.blocks.value, StartOfDay(day)).value
  }

  /** The computation at a block has all its answers, and its total covers what is held. */
  predicate Computable(b: ChainBlock, answers: Answers) {
    && AllGiven(answers)
    && Covers(b.total, b.timestamp, answers.accounts.value, answers.foundation.0.value + answers.foundation.1.value)
  }

  /** There is a block at or before the day's midnight, and the queries work. */
  predicate Findable(day: nat, a: Attempt) {
    && a.blocks.Some? && a.supplyQueryWorks
    && exists b :: b in a.blocks.value && b.timestamp <= StartOfDay(day)
  }

  lemma TargetExists(day: nat, a: Attempt)
    requires a.blocks.Some?
    ensures Latest(a.blocks.value, StartOfDay(day)).Some? <==>
            exists b :: b in a.blocks.value && b.timestamp <= StartOfDay(day)
  {
    LatestIsLatest(a.blocks.value, StartOfDay(day));
  }

  /** An attempt is done exactly when there is a block to compute for and either a row has its timestamp
      or the computation is possible; then the block's supply, at its own moment, is in the table
      unless a row of its hash or timestamp was there. It stops for good only by a fault. */
  lemma AttemptExactly(table: Table, day: nat, a: Attempt)
    ensures Findable(day, a) ==> a.blocks.Some? && Latest(a.blocks.value, StartOfDay(day)).Some?
    ensures Collect(table, day, a).1.Done? <==>
            Findable(day, a)
            && (Precomputed(table, Target(day, a).timestamp) || Computable(Target(day, a), a.answers(Target(day, a))))
    ensures Collect(table, day, a).1.Stop? <==>
            && Findable(day, a) && !Precomputed(table, Target(day, a).timestamp)
            && Computation(Target(day, a).total, Target(day, a).timestamp, a.answers(Target(day, a))).Faulty?
    ensures !Collect(table, day, a).1.Done? ==> Collect(table, day, a).0 == table
    ensures Collect(table, day, a).1.Done? ==>
              var b := Target(day, a);
              var answers := a.answers(b);
              Collect(table, day, a).0 ==
              if Precomputed(table, b.timestamp) || b.hash in table then table
              else table[b.hash := SupplyRow(b.timestamp, SupplyAt(b.total, b.timestamp, answers.accounts.value,
                                   answers.foundation.0.value + answers.foundation.1.value))]
  {
    if a.blocks.Some? {
      TargetExists(day, a);
      if Latest(a.blocks.value, StartOfDay(day)).Some? {
        var b := Target(day, a);
        ComputationExactly(b.total, b.timestamp, a.answers(b));
      }
    }
  }

  /** A fault ends it: nothing is passed or written any more. */
  lemma {:induction false} StoppedForGood(s: State, attempts: seq<Attempt>, fault: Attempt)
    requires s.running && Collect(s.table, s.day, fault).1.Stop?
    ensures var stopped := Step(s, fault);
            !stopped.running && stopped.table == s.table && stopped.day == s.day
                && Reached(stopped, attempts) == stopped
  {
    AttemptExactly(s.table, s.day, fault);
    if attempts != [] { StoppedForGood(s, Front(attempts), fault); }
  }

  /** When every attempt finds its block and can compute, the run passes one day each. */
  lemma {:induction false} EveryDayPasses(s: State, attempts: seq<Attempt>)
    requires s.running
    requires forall i :: 0 <= i < |attempts| ==> CanCollect(Later(s.day, DAY, i), attempts[i])
    ensures Passed(s, attempts) == |attempts|
    ensures Reached(s, attempts).running && Reached(s, attempts).day == Later(s.day, DAY, |attempts|)
  {
    if attempts != [] {
      EveryDayPasses(s, Front(attempts));
      var before := Reached(s, Front(attempts));
      assert CanCollect(before.day, Last(attempts));
      AttemptExactly(before.table, before.day, Last(attempts));
    }
  }

  predicate CanCollect(day: nat, a: Attempt) {
    && Findable(day, a)
    && Latest(a.blocks.value, StartOfDay(day)).Some? && Computable(Target(day, a), a.answers(Target(day, a)))
  }

  /** A successful attempt leaves a row for the latest block exactly when no earlier row shares
      only its hash or only its timestamp. */
  lemma AttemptStoresExactly(table: Table, day: nat, a: Attempt)
    requires UniqueTimestamps(table) && Collect(table, day, a).1.Done?
    ensures var b := Target(day, a);
            HasRow(Collect(table, day, a).0, b)
            <==> forall h :: h in table ==> (table[h].timestamp == b.timestamp <==> h == b.hash)
  {
    var b := Target(day, a);
    if HasRow(Collect(table, day, a).0, b) && b.hash in table {
      assert table[b.hash].timestamp == b.timestamp;
    }
  }

  // ---- Runs beside a chain ---------------------------------------------------------------------

  ghost predicate Distinct(chain: iset<ChainBlock>) {
    forall b, c :: b in chain && c in chain && (b.hash == c.hash || b.timestamp == c.timestamp) ==> b == c
  }

  ghost predicate OnChain(chain: iset<ChainBlock>, table: Table) {
    forall h :: h in table ==> exists b :: b in chain && b.hash == h && b.timestamp == table[h].timestamp
  }

  /** The blocks the attempt sees are those of the chain, up to the moment it asks for. */
  ghost predicate Complete(chain: iset<ChainBlock>, day: nat, a: Attempt) {
    a.blocks.Some? ==>
      forall b: ChainBlock :: b.timestamp <= StartOfDay(day) ==> (b in a.blocks.value <==> b in chain)
  }

  ghost predicate AllComplete(chain: iset<ChainBlock>, s: State, attempts: seq<Attempt>) {
    attempts != [] ==>
      && AllComplete(chain, s, Front(attempts))
      && Complete(chain, Reached(s, Front(attempts)).day, Last(attempts))
  }

  /** Day `k` has a row for the latest block of the chain at its moment. */
  ghost predicate DayStored(chain: iset<ChainBlock>, table: Table, k: nat) {
    exists b :: IsLatest(chain, StartOfDay(DayAt(k)), b) && HasRow(table, b)
  }

  ghost predicate DaysStored(chain: iset<ChainBlock>, table: Table, n: nat) {
    forall k :: 0 <= k < n ==> DayStored(chain, table, k)
  }

  lemma LatestOnChain(chain: iset<ChainBlock>, day: nat, a: Attempt)
    requires Complete(chain, day, a) && a.blocks.Some? && Latest(a.blocks.value, StartOfDay(day)).Some?
    ensures IsLatest(chain, StartOfDay(day), Latest(a.blocks.value, StartOfDay(day)).value)
  {
    LatestIsLatest(a.blocks.value, StartOfDay(day));
  }

  /** What a success leaves for block `b`: an earlier row of its timestamp, or a new one. */
  ghost predicate Stores(table: Table, b: ChainBlock, after: Table) {
    if Precomputed(table, b.timestamp) then after == table else exists supply :: after == Insert(table, b, supply)
  }

  lemma StoredOnChain(chain: iset<ChainBlock>, table: Table, b: ChainBlock, after: Table)
    requires Distinct(chain) && OnChain(chain, table) && b in chain && Stores(table, b, after)
    ensures OnChain(chain, after) && Extends(table, after) && HasRow(after, b)
  {
    forall h | h in table ensures h == b.hash <==> table[h].timestamp == b.timestamp {
      var c :| c in chain && c.hash == h && c.timestamp == table[h].timestamp;
    }
  }

  lemma SuccessStores(chain: iset<ChainBlock>, table: Table, day: nat, a: Attempt)
    requires Distinct(chain) && OnChain(chain, table) && Complete(chain, day, a)
    requires Collect(table, day, a).1.Done?
    ensures var after := Collect(table, day, a).0;
            && OnChain(chain, after) && Extends(table, after)
            && exists b :: IsLatest(chain, StartOfDay(day), b) && HasRow(after, b)
  {
    var b, after := Target(day, a), Collect(table, day, a).0;
    assert Stores(table, b, after);
    LatestOnChain(chain, day, a);
    StoredOnChain(chain, table, b, after);
  }

  lemma OneMoreDay(chain: iset<ChainBlock>, old_: Table, new_: Table, n: nat)
    requires DaysStored(chain, old_, n) && Extends(old_, new_) && DayStored(chain, new_, n)
    ensures DaysStored(chain, new_, n + 1)
  {
    StoredDaysKept(chain, old_, new_, n);
  }

  lemma AttemptKeeps(chain: iset<ChainBlock>, s: State, a: Attempt, n: nat)
    requires Distinct(chain) && OnChain(chain, s.table) && Complete(chain, s.day, a)
    requires s.day == DayAt(n) && DaysStored(chain, s.table, n)
    ensures OnChain(chain, Step(s, a).table)
    ensures DaysStored(chain, Step(s, a).table, if Succeeds(s, a) then n + 1 else n)
  {
    if Succeeds(s, a) {
      SuccessStores(chain, s.table, s.day, a);
      OneMoreDay(chain, s.table, Collect(s.table, s.day, a).0, n);
    } else {
      assert Step(s, a).table == s.table;
    }
  }

  /** Every passed day has a row for its latest block, and every row is for a block of the chain. */
  lemma {:induction false} PassedDaysAreStored(chain: iset<ChainBlock>, rows: Table, attempts: seq<Attempt>)
    requires Distinct(chain) && OnChain(chain, rows)
    requires AllComplete(chain, Begin(rows), attempts)
    ensures var s := Begin(rows);
            && OnChain(chain, Reached(s, attempts).table)
            && DaysStored(chain, Reached(s, attempts).table, Passed(s, attempts))
  {
    if attempts != [] {
      var s := Begin(rows);
      PassedDaysAreStored(chain, rows, Front(attempts));
      DaysFollow(rows, Front(attempts));
      AttemptKeeps(chain, Reached(s, Front(attempts)), Last(attempts), Passed(s, Front(attempts)));
    }
  }

  lemma StoredDaysKept(chain: iset<ChainBlock>, old_: Table, new_: Table, n: nat)
    requires DaysStored(chain, old_, n) && Extends(old_, new_)
    ensures DaysStored(chain, new_, n)
  {
    forall k | 0 <= k < n ensures DayStored(chain, new_, k) {
      assert DayStored(chain, old_, k);
      var b :| IsLatest(chain, StartOfDay(DayAt(k)), b) && HasRow(old_, b);
      assert HasRow(new_, b);
    }
  }

  /** Starting over from the first day changes nothing while the days are stored ones. */
  lemma {:induction false} StartingOverChangesNothing(chain: iset<ChainBlock>, rows: Table, n: nat,
      attempts: seq<Attempt>)
    requires Distinct(chain) && DaysStored(chain, rows, n)
    requires AllComplete(chain, Begin(rows), attempts)
    requires Passed(Begin(rows), attempts) <= n
    ensures Reached(Begin(rows), attempts).table == rows
  {
    if attempts == [] { return; }
    var s := Begin(rows);
    var before, a := Reached(s, Front(attempts)), Last(attempts);
    StartingOverChangesNothing(chain, rows, n, Front(attempts));
    DaysFollow(rows, Front(attempts));
    if Succeeds(before, a) {
      var k := Passed(s, Front(attempts));
      assert DayStored(chain, rows, k);
      var b :| IsLatest(chain, StartOfDay(DayAt(k)), b) && HasRow(rows, b);
      LatestOnChain(chain, before.day, a);
      assert Target(before.day, a) == b;
      assert Precomputed(rows, b.timestamp);
    }
  }

  /** A restarted scheduler, at most as far along as the first one, leaves the first one's table. */
  lemma RestartChangesNothing(chain: iset<ChainBlock>, rows: Table, first: seq<Attempt>, second: seq<Attempt>)
    requires Distinct(chain) && OnChain(chain, rows)
    requires AllComplete(chain, Begin(rows), first)
    requires AllComplete(chain, Begin(Reached(Begin(rows), first).table), second)
    requires Passed(Begin(Reached(Begin(rows), first).table), second) <= Passed(Begin(rows), first)
    ensures var table := Reached(Begin(rows), first).table;
            Reached(Begin(table), second).table == table
  {
    PassedDaysAreStored(chain, rows, first);
    StartingOverChangesNothing(
      chain, Reached(Begin(rows), first).table, Passed(Begin(rows), first), second);
  }
}
