/** Vesting schedules (`state/vesting.rs`, `ix_lock_position.rs`): a cliff and then equal periods. */
module Vestings {
  import opened Numbers
  import opened Arithmetic

  datatype VestingParameters = VestingParameters(
    cliffPoint: Option<uint64>,      // `None`: start at once
    periodFrequency: uint64,
    cliffUnlockLiquidity: uint128,
    liquidityPerPeriod: uint128,
    numberOfPeriod: uint16)
  {
    function CliffPoint(currentPoint: uint64): uint64 {
      if cliffPoint.Some? then cliffPoint.value else currentPoint
    }

    function TotalLockAmount(): Result<uint128> {
      var periods :- Checked128(liquidityPerPeriod * numberOfPeriod);
      Checked128(cliffUnlockLiquidity + periods)
    }

    function Validate(currentPoint: uint64, maxVestingDuration: uint64): Result<uint128> {
      var cliff := CliffPoint(currentPoint);
      var _ :- Require(cliff >= currentPoint, InvalidVestingInfo);
      var _ :- Require(cliff == currentPoint ==> numberOfPeriod > 0, InvalidVestingInfo);
      var _ :- Require(numberOfPeriod > 0 ==> periodFrequency > 0 && liquidityPerPeriod > 0, InvalidVestingInfo);
      var periods :- Checked64(periodFrequency * numberOfPeriod);
      var duration :- Checked64(cliff - currentPoint + periods);
      var _ :- Require(duration <= maxVestingDuration, InvalidVestingInfo);
      var total :- TotalLockAmount();
      var _ :- Require(total > 0, InvalidVestingInfo);
      Ok(total)
    }

    function ToVesting(position: Id, currentPoint: uint64): VestingView {
      VestingView(position, CliffPoint(currentPoint), periodFrequency, cliffUnlockLiquidity, liquidityPerPeriod,
                  numberOfPeriod, 0)
    }
  }

  datatype VestingView = VestingView(
    position: Id,
    cliffPoint: uint64,
    periodFrequency: uint64,
    cliffUnlockLiquidity: uint128,
    liquidityPerPeriod: uint128,
    numberOfPeriod: uint16,
    totalReleasedLiquidity: uint128)
  {
    function TotalLockAmount(): Result<uint128> {
      var periods :- Checked128(liquidityPerPeriod * numberOfPeriod);
      Checked128(cliffUnlockLiquidity + periods)
    }

    function MaxUnlockedLiquidity(currentPoint: uint64): Result<uint128> {
      if currentPoint < cliffPoint then Ok(0)
      else if periodFrequency == 0 then Ok(cliffUnlockLiquidity)
      else
        var period := Min((currentPoint - cliffPoint) / periodFrequency, numberOfPeriod);
        var periods :- Checked128(period * liquidityPerPeriod);
        Checked128(cliffUnlockLiquidity + periods)
    }

    function NewReleaseLiquidity(currentPoint: uint64): Result<uint128> {
      var unlocked :- MaxUnlockedLiquidity(currentPoint);
      Checked128(unlocked - totalReleasedLiquidity)
    }

    function AccumulateReleased(released: uint128): Result<VestingView> {
      var total :- Checked128(totalReleasedLiquidity + released);
      Ok(this.(totalReleasedLiquidity := total))
    }

    function Done(): Result<bool> {
      var total :- TotalLockAmount();
      Ok(totalReleasedLiquidity == total)
    }

    /** The release step of `refresh_vesting`, on the vesting alone. */
    function Release(currentPoint: uint64): Result<VestingView> {
      var released :- NewReleaseLiquidity(currentPoint);
      if released > 0 then AccumulateReleased(released) else Ok(this)
    }

    ghost function Total(): nat {
      cliffUnlockLiquidity + liquidityPerPeriod * numberOfPeriod
    }

    /** The first point at which everything is unlocked. */
    ghost function EndPoint(): nat {
      cliffPoint + periodFrequency * numberOfPeriod
    }

    ghost function Outstanding(): int {
      Total() - totalReleasedLiquidity
    }

    /** What the checks at locking time leave: the schedule is well formed and locks something. */
    ghost predicate WellFormed() {
      && 0 < Total() <= U128_MAX
      && (numberOfPeriod > 0 ==> periodFrequency > 0 && liquidityPerPeriod > 0)
    }

    /** Nothing has been released that is not unlocked by `point`. */
    ghost predicate ReleasedBy(point: uint64) {
      MaxUnlockedLiquidity(point).Ok? && totalReleasedLiquidity <= MaxUnlockedLiquidity(point).value
    }
  }

  /** The schedule never fails, never unlocks more than was locked, unlocks everything from its end point on and
      only then. */
  lemma UnlockedAmount(v: VestingView, point: uint64)
    requires v.WellFormed()
    ensures var unlocked := v.MaxUnlockedLiquidity(point);
            && unlocked.Ok? && unlocked.value <= v.Total()
            && (unlocked.value == v.Total() <==> v.EndPoint() <= point)
    ensures v.TotalLockAmount() == Ok(v.Total())
  {
    if v.periodFrequency == 0 || point < v.cliffPoint {
      WithoutPeriods(v, point);
    } else {
      AfterPeriods(v, point);
    }
  }

  lemma WithoutPeriods(v: VestingView, point: uint64)
    requires v.WellFormed() && (v.periodFrequency == 0 || point < v.cliffPoint)
    ensures var unlocked := v.MaxUnlockedLiquidity(point);
            && unlocked.Ok? && unlocked.value <= v.Total()
            && (unlocked.value == v.Total() <==> v.EndPoint() <= point)
  {
    assert v.periodFrequency * v.numberOfPeriod >= 0;
  }

  lemma AfterPeriods(v: VestingView, point: uint64)
    requires v.WellFormed() && v.periodFrequency > 0 && v.cliffPoint <= point
    ensures var unlocked := v.MaxUnlockedLiquidity(point);
            && unlocked.Ok? && unlocked.value <= v.Total()
            && (unlocked.value == v.Total() <==> v.EndPoint() <= point)
  {
    hide VestingView.MaxUnlockedLiquidity;
    var passed := Quotient(point - v.cliffPoint, v.periodFrequency);
    PeriodsUnlocked(point - v.cliffPoint, v.periodFrequency, v.numberOfPeriod, v.liquidityPerPeriod, passed);
    UnlockedAfter(v, point, passed);
  }

  lemma UnlockedAfter(v: VestingView, point: uint64, passed: nat)
    requires v.cliffPoint <= point && passed * v.periodFrequency <= point - v.cliffPoint < (passed + 1) * v.periodFrequency
    ensures var parts := Min(passed, v.numberOfPeriod) * v.liquidityPerPeriod;
            0 <= parts && v.cliffUnlockLiquidity + parts <= U128_MAX ==>
              v.MaxUnlockedLiquidity(point) == Ok(v.cliffUnlockLiquidity + parts)
  {
    FloorIs(point - v.cliffPoint, v.periodFrequency, passed);
  }

  /** The parts unlocked after `passed` whole periods are all of them exactly when all periods have passed. */
  lemma PeriodsUnlocked(elapsed: nat, f: nat, n: nat, part: nat, passed: nat)
    requires f > 0 && passed * f <= elapsed < (passed + 1) * f && (n > 0 ==> part > 0)
    ensures 0 <= Min(passed, n) * part <= part * n
    ensures Min(passed, n) * part == part * n <==> f * n <= elapsed
  {
    if passed < n {
      MulMono(passed + 1, n, f);
      MulMono(passed + 1, n, part);
      assert (passed + 1) * part == passed * part + part;
    } else {
      MulMono(n, passed, f);
    }
  }

  /** Nothing before the cliff; after `k` of the periods the cliff amount and `k` equal parts. */
  lemma UnlockedOfPeriod(v: VestingView, point: uint64, k: uint16)
    requires v.WellFormed()
    ensures point < v.cliffPoint ==> v.MaxUnlockedLiquidity(point) == Ok(0)
    ensures point >= v.cliffPoint && InPeriod(point - v.cliffPoint, v.periodFrequency, v.numberOfPeriod, k) ==>
              && v.MaxUnlockedLiquidity(point).Ok?
              && v.MaxUnlockedLiquidity(point).value == v.cliffUnlockLiquidity + k * v.liquidityPerPeriod
  {
    UnlockedAmount(v, point);
    if point >= v.cliffPoint && InPeriod(point - v.cliffPoint, v.periodFrequency, v.numberOfPeriod, k) {
      if v.periodFrequency > 0 {
        WholePeriods(point - v.cliffPoint, v.periodFrequency, v.numberOfPeriod, k);
      } else {
        assert v.numberOfPeriod == 0;
      }
      hide InPeriod;
    }
  }

  lemma UnlockedIsMonotone(v: VestingView, point: uint64, later: uint64)
    requires v.WellFormed() && point <= later
    ensures v.MaxUnlockedLiquidity(point).Ok? && v.MaxUnlockedLiquidity(later).Ok?
    ensures v.MaxUnlockedLiquidity(point).value <= v.MaxUnlockedLiquidity(later).value
  {
    UnlockedAmount(v, point);
    UnlockedAmount(v, later);
    if v.cliffPoint <= point && v.periodFrequency > 0 {
      var n := Min((point - v.cliffPoint) / v.periodFrequency, v.numberOfPeriod);
      var m := Min((later - v.cliffPoint) / v.periodFrequency, v.numberOfPeriod);
      FloorMono(point - v.cliffPoint, later - v.cliffPoint, v.periodFrequency);
      MulMono(n, m, v.liquidityPerPeriod);
    }
  }

  /** A refresh releases exactly what is unlocked and not yet released; the vesting is then done exactly when its
      end point has been reached. */
  lemma ReleaseIsExact(v: VestingView, point: uint64)
    requires v.WellFormed() && v.ReleasedBy(point)
    ensures var r := v.Release(point);
            && r.Ok?
            && v.NewReleaseLiquidity(point) == Ok(r.value.totalReleasedLiquidity - v.totalReleasedLiquidity)
            && r.value == v.(totalReleasedLiquidity := v.MaxUnlockedLiquidity(point).value)
            && r.value.Done() == Ok(v.EndPoint() <= point)
            && r.value.ReleasedBy(point)
  {
    UnlockedAmount(v, point);
    UnlockedAmount(v.(totalReleasedLiquidity := v.MaxUnlockedLiquidity(point).value), point);
  }

  function ReleaseAll(v: VestingView, points: seq<uint64>): Result<VestingView>
    decreases |points|
  {
    if points == [] then Ok(v) else
      var next :- v.Release(points[0]);
      ReleaseAll(next, points[1..])
  }

  ghost predicate NonDecreasing(points: seq<nat>) {
    forall i, j :: 0 <= i < j < |points| ==> points[i] <= points[j]
  }

  /** With a clock that never goes back no refresh fails, and what has been released after the last one does not
      depend on when, or whether, the vesting was refreshed before. */
  lemma {:induction false} ReleaseIsPathIndependent(v: VestingView, points: seq<uint64>)
    requires v.WellFormed() && points != [] && NonDecreasing(points) && v.ReleasedBy(points[0])
    ensures ReleaseAll(v, points) == v.Release(points[|points| - 1])
    ensures ReleaseAll(v, points).Ok?
    decreases |points|
  {
    hide VestingView.Release, VestingView.MaxUnlockedLiquidity, VestingView.ReleasedBy, VestingView.Done;
    var last := points[|points| - 1];
    ReleaseIsExact(v, points[0]);
    var next := v.Release(points[0]).value;
    if |points| == 1 {
      assert points[1..] == [];
    } else {
      assert NonDecreasing(points[1..]);
      StaysReleased(v, points[0], points[1]);
      StaysReleased(next, points[0], points[1]);
      StaysReleased(v, points[0], last);
      StaysReleased(next, points[0], last);
      ReleaseIsPathIndependent(next, points[1..]);
      ReleaseIsExact(next, last);
      ReleaseIsExact(v, last);
      SameSchedule(v, next, last);
    }
  }

  lemma StaysReleased(v: VestingView, point: uint64, later: uint64)
    requires v.WellFormed() && v.ReleasedBy(point) && point <= later
    ensures v.ReleasedBy(later)
  {
    UnlockedIsMonotone(v, point, later);
  }

  lemma SameSchedule(v: VestingView, w: VestingView, point: uint64)
    requires w == v.(totalReleasedLiquidity := w.totalReleasedLiquidity)
    ensures v.MaxUnlockedLiquidity(point) == w.MaxUnlockedLiquidity(point)
  {
  }

  // ---------------------------------------------------------------------------------------------
  // What a lock writes, in terms of what was asked for
  // ---------------------------------------------------------------------------------------------

  /** The cliff that was asked for, or the current point. */
  ghost function CliffOf(p: VestingParameters, point: nat): nat {
    match p.cliffPoint
    case Some(cliff) => cliff
    case None => point
  }

  /** All that a schedule locks. */
  ghost function Locked(p: VestingParameters): nat {
    p.cliffUnlockLiquidity + p.liquidityPerPeriod * p.numberOfPeriod
  }

  /** The schedule does not start in the past, has periods unless it waits for a cliff, is over within the longest
      duration, and locks something that fits 128 bits. */
  ghost predicate ValidSchedule(p: VestingParameters, point: nat, maxDuration: nat) {
    && point <= CliffOf(p, point)
    && (p.numberOfPeriod == 0 ==> point < CliffOf(p, point))
    && (p.numberOfPeriod > 0 ==> p.periodFrequency > 0 && p.liquidityPerPeriod > 0)
    && CliffOf(p, point) - point + p.periodFrequency * p.numberOfPeriod <= maxDuration
    && 0 < Locked(p) <= U128_MAX
  }

  /** Exactly the valid schedules are accepted, and the amount to lock is all they ever unlock. */
  lemma ValidateSucceedsExactly(p: VestingParameters, point: uint64, maxDuration: uint64)
    ensures var r := p.Validate(point, maxDuration);
            && (r.Ok? <==> ValidSchedule(p, point, maxDuration))
            && (r.Ok? ==> r.value == Locked(p))
            && (r.Err? ==> r.error in {InvalidVestingInfo, MathOverflow})
  {
    assert p.periodFrequency * p.numberOfPeriod >= 0 && p.liquidityPerPeriod * p.numberOfPeriod >= 0;
  }

  /** At `point` the vesting has unlocked what the parameters say: nothing before the cliff, and after `k` periods the
      cliff amount and `k` equal parts. */
  ghost predicate UnlocksAt(v: VestingView, p: VestingParameters, cliff: nat, point: uint64, k: uint16) {
    && (point < cliff ==> v.MaxUnlockedLiquidity(point) == Ok(0))
    && (point >= cliff && InPeriod(point - cliff, p.periodFrequency, p.numberOfPeriod, k) ==>
          && v.MaxUnlockedLiquidity(point).Ok?
          && v.MaxUnlockedLiquidity(point).value == p.cliffUnlockLiquidity + k * p.liquidityPerPeriod)
  }

  /** The vesting unlocks at every point what was asked for. */
  ghost predicate FollowsSchedule(v: VestingView, p: VestingParameters, cliff: nat) {
    && v.Total() == Locked(p) && v.EndPoint() == cliff + p.periodFrequency * p.numberOfPeriod
    && forall point: uint64, k: uint16 :: UnlocksAt(v, p, cliff, point, k)
  }

  /** A lock writes a well-formed vesting that follows the schedule asked for and has released nothing. */
  lemma LockFollowsSchedule(p: VestingParameters, position: Id, point: uint64, maxDuration: uint64)
    requires ValidSchedule(p, point, maxDuration)
    ensures var v := p.ToVesting(position, point);
            && v.position == position && v.WellFormed() && v.totalReleasedLiquidity == 0
            && FollowsSchedule(v, p, CliffOf(p, point))
  {
    var v := p.ToVesting(position, point);
    hide VestingView.MaxUnlockedLiquidity, InPeriod;
    forall at: uint64, k: uint16 ensures UnlocksAt(v, p, CliffOf(p, point), at, k) {
      UnlockedOfPeriod(v, at, k);
    }
  }
}
