/**
 * The token grants of the compiled chain specifications: each becomes a balance and two vesting
 * schedules. The vesting pallet is not part of the repository; a schedule is taken to release
 * `perPeriod` at the end of each of its periods, `count` times.
 */
module Vesting {

  /** Who, from which block, with which period, how often, how much each time. */
  datatype Schedule<A> = Schedule(who: A, start: nat, period: nat, count: nat, perPeriod: nat)

  datatype Grant<A> = Grant(account: A, amount: nat)

  datatype Balance<A> = Balance(account: A, amount: nat)

  const START_BLOCK: nat := 100_000_000
  const U32_LIMIT: nat := 0x1_0000_0000
  const U128_LIMIT: nat := 0x1_0000_0000_0000_0000_0000_0000_0000_0000

  /** A quarter after a year. */
  function Cliff<A>(account: A, amount: nat, month: nat): Schedule<A> {
    Schedule(account, START_BLOCK, month * 12, 1, amount / 4)
  }

  /** A forty-eighth in each of the 36 months after that. */
  function Monthly<A>(account: A, amount: nat, month: nat): Schedule<A> {
    Schedule(account, START_BLOCK + month * 12, month, 36, amount / 48)
  }

  /** Block numbers fit 32 bits, amounts 128 bits. */
  predicate Representable<A>(grants: seq<Grant<A>>, ssc: nat, month: nat) {
    && month > 0
    && START_BLOCK + month * 12 < U32_LIMIT
    && 1_000 * ssc < U128_LIMIT
    && forall i :: 0 <= i < |grants| ==> grants[i].amount * ssc < U128_LIMIT
  }

  /**
   * The grants' closure: it pushes a balance and yields two schedules for each grant. The first
   * balance is the sudo account's.
   */
  method GenesisGrants<A>(sudo: A, grants: seq<Grant<A>>, ssc: nat, month: nat)
    returns (balances: seq<Balance<A>>, schedules: seq<Schedule<A>>)
    requires Representable(grants, ssc, month)
    ensures |balances| == |grants| + 1 && balances[0] == Balance(sudo, 1_000 * ssc)
    ensures |schedules| == 2 * |grants|
    ensures forall i :: 0 <= i < |grants| ==>
      && balances[i + 1] == Balance(grants[i].account, grants[i].amount * ssc)
      && schedules[2 * i] == Cliff(grants[i].account, grants[i].amount * ssc, month)
      && schedules[2 * i + 1] == Monthly(grants[i].account, grants[i].amount * ssc, month)
    ensures FullyReleased(schedules) <= TotalBalance(balances[1..]) <= FullyReleased(schedules) + 36 * |grants|
  {
    balances := [Balance(sudo, 1_000 * ssc)];
    schedules := [];
    var i := 0;
    while i < |grants|
      invariant i <= |grants| && |balances| == i + 1 && |schedules| == 2 * i
      invariant balances[0] == Balance(sudo, 1_000 * ssc)
      invariant forall j :: 0 <= j < i ==>
        && balances[j + 1] == Balance(grants[j].account, grants[j].amount * ssc)
        && schedules[2 * j] == Cliff(grants[j].account, grants[j].amount * ssc, month)
        && schedules[2 * j + 1] == Monthly(grants[j].account, grants[j].amount * ssc, month)
      invariant FullyReleased(schedules) <= TotalBalance(balances[1..]) <= FullyReleased(schedules) + 36 * i
    {
      var account, amount := grants[i].account, grants[i].amount * ssc;
      var first, second := Cliff(account, amount, month), Monthly(account, amount, month);
      AppendBalance(balances[1..], Balance(account, amount));
      AppendGrant(schedules, account, amount, month);
      assert (balances + [Balance(account, amount)])[1..] == balances[1..] + [Balance(account, amount)];
      balances := balances + [Balance(account, amount)];
      schedules := schedules + [first, second];
      i := i + 1;
    }
  }

  function TotalBalance<A>(balances: seq<Balance<A>>): nat {
    if balances == [] then 0 else TotalBalance(balances[..|balances| - 1]) + balances[|balances| - 1].amount
  }

  /** What schedules release in the end. */
  function FullyReleased<A>(schedules: seq<Schedule<A>>): nat {
    if schedules == [] then 0
    else FullyReleased(schedules[..|schedules| - 1])
         + schedules[|schedules| - 1].count * schedules[|schedules| - 1].perPeriod
  }

  lemma AppendBalance<A>(balances: seq<Balance<A>>, b: Balance<A>)
    ensures TotalBalance(balances + [b]) == TotalBalance(balances) + b.amount
  {
    assert (balances + [b])[..|balances|] == balances;
  }

  lemma AppendSchedules<A>(schedules: seq<Schedule<A>>, first: Schedule<A>, second: Schedule<A>)
    ensures FullyReleased(schedules + [first, second]) ==
            FullyReleased(schedules) + first.count * first.perPeriod + second.count * second.perPeriod
  {
    assert (schedules + [first, second])[..|schedules| + 1] == schedules + [first];
    assert (schedules + [first])[..|schedules|] == schedules;
  }

  lemma AppendGrant<A>(schedules: seq<Schedule<A>>, account: A, amount: nat, month: nat)
    requires month > 0
    ensures var all := schedules + [Cliff(account, amount, month), Monthly(account, amount, month)];
            FullyReleased(all) <= FullyReleased(schedules) + amount <= FullyReleased(all) + 36
  {
    AppendSchedules(schedules, Cliff(account, amount, month), Monthly(account, amount, month));
    QuarterInFortyEighths(amount);
  }

  /**
   * The two schedules of a grant never release more than was funded, and at most 36 base units
   * less; nothing is left locked forever exactly when 48 divides the amount.
   */
  lemma GrantIsAlmostFullyReleased<A>(account: A, amount: nat, month: nat)
    requires month > 0
    ensures var released := FullyReleased([Cliff(account, amount, month), Monthly(account, amount, month)]);
            && released <= amount <= released + 36
            && (released == amount <==> amount % 48 == 0)
  {
    AppendSchedules([], Cliff(account, amount, month), Monthly(account, amount, month));
    assert [] + [Cliff(account, amount, month), Monthly(account, amount, month)]
        == [Cliff(account, amount, month), Monthly(account, amount, month)];
    QuarterInFortyEighths(amount);
  }

  lemma QuarterInFortyEighths(amount: nat)
    ensures amount / 4 == 12 * (amount / 48) + amount % 48 / 4
  {
  }

  // ---------------------------------------------------------------------------------------
  // Release over time
  // ---------------------------------------------------------------------------------------

  function ElapsedPeriods<A>(s: Schedule<A>, block: nat): nat
    requires s.period > 0
  {
    var elapsed := if block >= s.start then (block - s.start) / s.period else 0;
    if elapsed < s.count then elapsed else s.count
  }

  function Released<A>(s: Schedule<A>, block: nat): nat
    requires s.period > 0
  {
    ElapsedPeriods(s, block) * s.perPeriod
  }

  /** Released from a whole grant. */
  function GrantReleased<A>(account: A, amount: nat, month: nat, block: nat): nat
    requires month > 0
  {
    Released(Cliff(account, amount, month), block) + Released(Monthly(account, amount, month), block)
  }

  lemma DivMonotone(a: nat, b: nat, d: nat)
    requires a <= b && d > 0
    ensures a / d <= b / d
  {
    var p, q := a / d, b / d;
    assert p * d <= a && b < (q + 1) * d;
    if q + 1 <= p {
      MulMonotone(q + 1, p, d);
      assert false;
    }
  }

  lemma MulMonotone(a: nat, b: nat, c: nat)
    requires a <= b
    ensures a * c <= b * c
  {
  }

  lemma ScheduleNeverTakesBack<A>(s: Schedule<A>, block: nat, later: nat)
    requires s.period > 0 && block <= later
    ensures Released(s, block) <= Released(s, later)
  {
    if block >= s.start {
      DivMonotone(block - s.start, later - s.start, s.period);
    }
    MulMonotone(ElapsedPeriods(s, block), ElapsedPeriods(s, later), s.perPeriod);
  }

  /** What is released of a grant never becomes less. */
  lemma ReleaseIsMonotone<A>(account: A, amount: nat, month: nat, block: nat, later: nat)
    requires month > 0 && block <= later
    ensures GrantReleased(account, amount, month, block) <= GrantReleased(account, amount, month, later)
  {
    ScheduleNeverTakesBack(Cliff(account, amount, month), block, later);
    ScheduleNeverTakesBack(Monthly(account, amount, month), block, later);
  }

  lemma DivOfMultiple(k: nat, d: nat, r: nat)
    requires r < d
    ensures (k * d + r) / d == k
  {
    var q := (k * d + r) / d;
    assert q * d <= k * d + r < (q + 1) * d;
    assert (k + 1) * d == k * d + d;
    if q < k {
      MulMonotone(q + 1, k, d);
    } else if q > k {
      MulMonotone(k + 1, q, d);
    }
  }

  /** The number of whole months after the first year that have passed by a block, 36 at most. */
  function MonthsAfterYear(month: nat, block: nat): nat
    requires month > 0 && block >= START_BLOCK + month * 12
  {
    var months := (block - (START_BLOCK + month * 12)) / month;
    if months <= 36 then months else 36
  }

  /** Nothing is released in the first year. */
  lemma NothingInFirstYear<A>(account: A, amount: nat, month: nat, block: nat)
    requires month > 0 && block < 100_000_000 + month * 12
    ensures GrantReleased(account, amount, month, block) == 0
  {
    if block >= START_BLOCK {
      assert (block - START_BLOCK) / (month * 12) == 0 by {
        DivOfMultiple(0, month * 12, block - START_BLOCK);
      }
    }
  }

  lemma MonthsCounted(month: nat, block: nat, k: nat)
    requires month > 0 && k <= 36 && block >= START_BLOCK + (12 + k) * month
    requires k < 36 ==> block < START_BLOCK + (12 + k + 1) * month
    ensures block >= START_BLOCK + month * 12 && MonthsAfterYear(month, block) == k
  {
    var since := block - START_BLOCK - 12 * month;
    assert (12 + k) * month == 12 * month + k * month && (12 + k + 1) * month == 12 * month + k * month + month;
    MulMonotone(0, k, month);
    if k < 36 {
      DivOfMultiple(k, month, since - k * month);
    } else {
      DivMonotone(36 * month, since, month);
      DivOfMultiple(36, month, 0);
    }
  }

  /**
   * From the end of month k after the first year, up to the 36th, what is released is a quarter
   * of the grant and k forty-eighths, both rounded down: at most the exact share of (12 + k)
   * forty-eighths of it, and less than that by at most 36 base units.
   */
  lemma ReleaseFollowsTheExactShare<A>(account: A, amount: nat, month: nat, block: nat, k: nat)
    requires month > 0 && k <= 36 && block >= 100_000_000 + (12 + k) * month
    requires k < 36 ==> block < 100_000_000 + (12 + k + 1) * month
    ensures var released := GrantReleased(account, amount, month, block);
            && released == amount / 4 + k * (amount / 48)
            && 48 * released <= (12 + k) * amount <= 48 * (released + 36)
  {
    MonthsCounted(month, block, k);
    DivMonotone(month * 12, block - START_BLOCK, month * 12);
    DivOfMultiple(1, month * 12, 0);
    assert ElapsedPeriods(Cliff(account, amount, month), block) == 1;
    assert ElapsedPeriods(Monthly(account, amount, month), block) == k;
    var q, r := amount / 48, amount % 48;
    QuarterInFortyEighths(amount);
    assert GrantReleased(account, amount, month, block) == 12 * q + r / 4 + k * q;
    ShareArithmetic(q, r, k);
  }

  lemma ShareArithmetic(q: nat, r: nat, k: nat)
    requires r < 48 && k <= 36
    ensures 48 * (12 * q + r / 4 + k * q) <= (12 + k) * (48 * q + r) <= 48 * (12 * q + r / 4 + k * q + 36)
  {
    assert (12 + k) * (48 * q + r) == 48 * (12 * q + k * q) + 12 * r + k * r;
    assert 0 <= k * r <= 36 * r by {
      MulMonotone(k, 36, r);
      MulMonotone(0, k, r);
    }
  }
}
