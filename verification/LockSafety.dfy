/** Positions and their locks: opening and closing positions, vesting locks and their refreshes, permanent locks, and
    the passing of time. */
module LockSafety {
  import opened Numbers
  import opened Curve
  import opened Fees
  import opened Settlement
  import opened Rewards
  import opened Vestings
  import opened Positions
  import opened Pools
  import opened MapSums
  import opened Books
  import opened Ledgers
  import opened Solvency
  import opened Safety

  // ---------------------------------------------------------------------------------------------
  // Liquidity moves between the buckets of one position
  // ---------------------------------------------------------------------------------------------

  /** One position moves liquidity between its buckets. */
  ghost predicate ShiftsAt(l: Ledger, m: Ledger, id: Id) {
    && id in l.positions && id in m.positions
    && m == l.(positions := l.positions[id := m.positions[id]], vestings := m.vestings,
               pool := l.pool.(permanentLockLiquidity := m.pool.permanentLockLiquidity))
    && m.positions[id].Liquidity() == l.positions[id].Liquidity()
    && m.positions[id].fees == l.positions[id].fees && m.positions[id].rewards == l.positions[id].rewards
    && m.pool.permanentLockLiquidity - l.pool.permanentLockLiquidity
       == m.positions[id].permanent as int - l.positions[id].permanent
  }

  lemma ShiftKeeps(l: Ledger, m: Ledger, id: Id)
    requires Inv(l) && ShiftsAt(l, m, id) && VestingsBalanced(m.positions, m.vestings, m.Point())
    ensures Inv(m)
  {
    hide Inv, AccountSolvent, TotalLiquidity, TotalPermanent, VestingsBalanced, DynamicFee.Sound, RewardView.Sound,
         BaseFee.Validate, PositionView.Liquidity, CurveState.InRange;
    InvSoundPool(l);
    InvConserves(l);
    LiquidityAfter(l.positions, id, m.positions[id]);
    forall a: Account ensures m.pool.Curve().InRange() && AccountSolvent(m, a) {
      ShiftKeepsAccount(l, m, id, a);
    }
    InvFrom(m);
  }

  // ---------------------------------------------------------------------------------------------
  // Vesting locks
  // ---------------------------------------------------------------------------------------------

  /** What locking writes has released nothing and holds all that the schedule unlocks. */
  lemma LockedVesting(parameters: VestingParameters, id: Id, point: uint64, maxDuration: uint64)
    requires ValidSchedule(parameters, point, maxDuration)
    ensures var v := parameters.ToVesting(id, point);
            && v.position == id && v.WellFormed() && v.ReleasedBy(point)
            && v.Outstanding() == Locked(parameters) > 0
            && FollowsSchedule(v, parameters, CliffOf(parameters, point))
  {
    LockFollowsSchedule(parameters, id, point, maxDuration);
    UnlockedAmount(parameters.ToVesting(id, point), point);
    hide FollowsSchedule;
  }

  lemma LockBalances(positions: PositionMap, vestings: map<Id, VestingView>, point: uint64, id: Id, v: Id,
                     vesting: VestingView, p: PositionView)
    requires VestingsBalanced(positions, vestings, point) && id in positions && v !in vestings
    requires VestingSound(positions, vesting, point) && vesting.position == id
    requires p.vested == positions[id].vested + vesting.Outstanding()
    ensures VestingsBalanced(positions[id := p], vestings[v := vesting], point)
  {
    hide OutstandingOf, VestingView.WellFormed, VestingView.ReleasedBy, VestingView.Outstanding;
    var after := positions[id := p];
    forall k | k in after ensures after[k].vested == OutstandingOf(vestings[v := vesting], k) {
      OutstandingAfterInsert(vestings, v, vesting, k);
    }
  }

  /** What the parameters lock moves from unlocked to vested and is held by a new vesting that follows their schedule;
      nothing else changes. */
  ghost predicate LockedAt(l: Ledger, m: Ledger, id: Id, vestingId: Id, parameters: VestingParameters) {
    && id in l.positions && id in m.positions && vestingId in m.vestings
    && m == l.With(id, m.positions[id]).(vestings := l.vestings[vestingId := m.vestings[vestingId]])
    && m.positions[id] == l.positions[id].(unlocked := m.positions[id].unlocked, vested := m.positions[id].vested)
    && m.positions[id].unlocked + Locked(parameters) == l.positions[id].unlocked
    && m.positions[id].vested == l.positions[id].vested + Locked(parameters)
    && m.vestings[vestingId].position == id
    && m.vestings[vestingId].Outstanding() == Locked(parameters)
    && FollowsSchedule(m.vestings[vestingId], parameters, CliffOf(parameters, l.Point()))
  }

  /** A lock goes through exactly when the position exists, the address of the vesting is free, the schedule is valid and
      what it locks is unlocked. */
  lemma LockPositionSucceedsExactly(l: Ledger, id: Id, vestingId: Id, parameters: VestingParameters)
    requires Inv(l)
    ensures var r := l.LockPosition(id, vestingId, parameters);
            && (r.Ok? <==>
                  && id in l.positions && vestingId !in l.vestings
                  && ValidSchedule(parameters, l.Point(), if l.pool.config.activationType.Slot? then MAX_VESTING_SLOT_DURATION
                                                          else MAX_VESTING_TIME_DURATION)
                  && Locked(parameters) <= l.positions[id].unlocked)
            && (r.Ok? ==> Inv(r.value) && LockedAt(l, r.value, id, vestingId, parameters))
            && Safe(r)
  {
    hide Inv, VestingParameters.Validate, OutstandingOf, VestingView.WellFormed, VestingView.ReleasedBy, ValidSchedule, Locked,
         VestingView.Outstanding, VestingsBalanced, VestingParameters.ToVesting, FollowsSchedule, CliffOf;
    ValidateSucceedsExactly(parameters, l.Point(), MaxVestingDuration(l.pool.config.activationType));
    if id in l.positions {
      LiquidityFits(l, id);
    }
    var r := l.LockPosition(id, vestingId, parameters);
    if r.Ok? {
      LockedVesting(parameters, id, l.Point(), MaxVestingDuration(l.pool.config.activationType));
      InvBalances(l);
      LockBalances(l.positions, l.vestings, l.Point(), id, vestingId, parameters.ToVesting(id, l.Point()),
                   r.value.positions[id]);
      ShiftKeeps(l, r.value, id);
    }
  }

  // ---------------------------------------------------------------------------------------------
  // Refreshing vestings
  // ---------------------------------------------------------------------------------------------

  /** A vesting after a refresh at `point`: released just as far as it is unlocked. */
  ghost function Refreshed(v: VestingView, point: uint64): VestingView {
    var unlocked := v.MaxUnlockedLiquidity(point);
    v.(totalReleasedLiquidity := if unlocked.Ok? then unlocked.value else v.totalReleasedLiquidity)
  }

  /** All vestings after some of them were refreshed: those past their end point are gone. */
  ghost function RefreshedAll(vestings: map<Id, VestingView>, ids: seq<Id>, point: uint64): map<Id, VestingView> {
    map v | v in vestings && !(v in ids && vestings[v].EndPoint() <= point)
      :: if v in ids then Refreshed(vestings[v], point) else vestings[v]
  }

  lemma ReleaseBalances(positions: PositionMap, vestings: map<Id, VestingView>, point: uint64, v: Id, w: VestingView,
                        p: PositionView)
    requires VestingsBalanced(positions, vestings, point) && v in vestings
    requires w == vestings[v].(totalReleasedLiquidity := w.totalReleasedLiquidity)
    requires w.WellFormed() && w.ReleasedBy(point) && w.Outstanding() >= 0
    requires p.vested == positions[w.position].vested - vestings[v].Outstanding() + w.Outstanding()
    ensures VestingsBalanced(positions[w.position := p], if w.Outstanding() == 0 then vestings - {v} else vestings[v := w], point)
  {
    hide OutstandingOf, VestingView.WellFormed, VestingView.ReleasedBy, VestingView.Outstanding;
    var after := positions[w.position := p];
    if w.Outstanding() == 0 {
      forall k | k in after ensures after[k].vested == OutstandingOf(vestings - {v}, k) {
        OutstandingAfterClose(vestings, v, k);
      }
    } else {
      forall k | k in after ensures after[k].vested == OutstandingOf(vestings[v := w], k) {
        OutstandingAfterRelease(vestings, v, w, k);
      }
    }
  }

  /** What an open vesting still holds is part of the vested liquidity of its position. */
  lemma VestingIsHeld(l: Ledger, v: Id)
    requires Inv(l) && v in l.vestings
    ensures l.vestings[v].position in l.positions
    ensures l.vestings[v].WellFormed() && l.vestings[v].ReleasedBy(l.Point())
    ensures 0 < l.vestings[v].Outstanding() <= l.positions[l.vestings[v].position].vested
  {
    InvBalances(l);
    hide Inv, OutstandingOf, VestingView.WellFormed, VestingView.ReleasedBy, VestingView.Outstanding;
    assert VestingSound(l.positions, l.vestings[v], l.Point());
    OpenVestingIsOutstanding(l.vestings, v, l.vestings[v].position);
  }

  /** One turn of the loop: the vesting ends up released exactly up to what is unlocked now, whatever was released
      before, and is closed exactly when its end point has been reached. */
  lemma RefreshOneIs(l: Ledger, id: Id, v: Id)
    requires Inv(l) && id in l.positions
    ensures var r := l.RefreshOne(id, v);
            && (r.Ok? <==> v in l.vestings && l.vestings[v].position == id)
            && (r.Err? ==> r.error in {AccountNotFound, InvalidVestingAccount})
            && (r.Ok? ==>
                  && Inv(r.value) && ShiftsAt(l, r.value, id)
                  && r.value.pool == l.pool
                  && r.value.vestings == if l.vestings[v].EndPoint() <= l.Point() then l.vestings - {v}
                                         else l.vestings[v := Refreshed(l.vestings[v], l.Point())])
  {
    hide Inv, VestingView.Done, VestingView.Release, VestingView.EndPoint, VestingView.MaxUnlockedLiquidity, VestingsBalanced,
         VestingView.NewReleaseLiquidity, VestingView.WellFormed, VestingView.ReleasedBy;
    if v in l.vestings && l.vestings[v].position == id {
      var vesting := l.vestings[v];
      VestingIsHeld(l, v);
      LiquidityFits(l, id);
      ReleaseIsExact(vesting, l.Point());
      UnlockedAmount(vesting, l.Point());
      var w := vesting.Release(l.Point()).value;
      ReleaseStaysWellFormed(vesting, w);
      InvBalances(l);
      var r := l.RefreshOne(id, v);
      assert r.Ok?;
      ReleaseBalances(l.positions, l.vestings, l.Point(), v, w, r.value.positions[id]);
      ShiftKeeps(l, r.value, id);
    }
  }

  lemma ReleaseStaysWellFormed(v: VestingView, w: VestingView)
    requires v.WellFormed() && w == v.(totalReleasedLiquidity := w.totalReleasedLiquidity)
    ensures w.WellFormed() && w.Total() == v.Total()
  {
  }

  /** A refresh only fails on an account that is not an open vesting of the position. */
  lemma {:induction false} RefreshAllIsSafe(l: Ledger, id: Id, vestingIds: seq<Id>)
    requires Inv(l) && id in l.positions
    ensures var r := l.RefreshAll(id, vestingIds);
            && (r.Ok? ==> Inv(r.value) && id in r.value.positions && r.value.pool == l.pool)
            && (r.Err? ==> r.error in {AccountNotFound, InvalidVestingAccount})
    decreases |vestingIds|
  {
    hide Inv, Ledger.RefreshOne, VestingView.EndPoint, PositionView.Liquidity;
    if vestingIds != [] {
      RefreshOneIs(l, id, vestingIds[0]);
      if l.RefreshOne(id, vestingIds[0]).Ok? {
        RefreshAllIsSafe(l.RefreshOne(id, vestingIds[0]).value, id, vestingIds[1..]);
      }
    }
  }

  ghost predicate Distinct(ids: seq<Id>) {
    forall i, j :: 0 <= i < j < |ids| ==> ids[i] != ids[j]
  }

  ghost predicate OpenFor(vestings: map<Id, VestingView>, ids: seq<Id>, id: Id) {
    forall v :: v in ids ==> v in vestings && vestings[v].position == id
  }

  /** Refreshing any open vestings of a position never fails. Each ends up released as far as its schedule allows
      now - independent of when it was refreshed before - and is closed exactly from its end point on; the others
      are left alone, and the position's vested liquidity is again what its open vestings hold. */
  lemma {:induction false} RefreshReleasesAll(l: Ledger, id: Id, vestingIds: seq<Id>)
    requires Inv(l) && id in l.positions && Distinct(vestingIds) && OpenFor(l.vestings, vestingIds, id)
    ensures var r := l.RefreshAll(id, vestingIds);
            && r.Ok? && Inv(r.value) && id in r.value.positions
            && r.value.vestings == RefreshedAll(l.vestings, vestingIds, l.Point())
            && r.value.positions[id].vested == OutstandingOf(r.value.vestings, id)
    decreases |vestingIds|
  {
    hide Inv, Ledger.RefreshOne, VestingView.EndPoint, PositionView.Liquidity, Refreshed, OutstandingOf, VestingSound;
    if vestingIds == [] {
      InvBalances(l);
      assert RefreshedAll(l.vestings, [], l.Point()) == l.vestings;
    } else {
      var v, rest := vestingIds[0], vestingIds[1..];
      RefreshOneIs(l, id, v);
      var next := l.RefreshOne(id, v).value;
      assert Distinct(rest) && v !in rest;
      RefreshReleasesAll(next, id, rest);
      assert RefreshedAll(next.vestings, rest, l.Point()) == RefreshedAll(l.vestings, vestingIds, l.Point());
    }
  }

  /** All of `ids` are open vestings of the position, and none that is already over comes twice. */
  ghost predicate Refreshable(vestings: map<Id, VestingView>, ids: seq<Id>, id: Id, point: uint64) {
    && OpenFor(vestings, ids, id)
    && forall i, j :: 0 <= i < j < |ids| && ids[i] == ids[j] ==> vestings[ids[i]].EndPoint() > point
  }

  lemma RefreshableInTurn(vestings: map<Id, VestingView>, next: map<Id, VestingView>, ids: seq<Id>, id: Id, point: uint64)
    requires ids != [] && ids[0] in vestings && vestings[ids[0]].position == id
    requires next == if vestings[ids[0]].EndPoint() <= point then vestings - {ids[0]}
                     else vestings[ids[0] := Refreshed(vestings[ids[0]], point)]
    ensures Refreshable(vestings, ids, id, point) <==> Refreshable(next, ids[1..], id, point)
  {
    hide VestingView.MaxUnlockedLiquidity;
    var v, rest := ids[0], ids[1..];
    assert forall w :: w in ids <==> w == v || w in rest;
    if Refreshable(vestings, ids, id, point) {
      assert forall j :: 0 <= j < |rest| ==> rest[j] == ids[j + 1];
      assert forall w :: w in rest ==> w in next;
    } else if Refreshable(next, rest, id, point) {
      forall i, j | 0 <= i < j < |ids| && ids[i] == ids[j] ensures ids[i] in vestings && vestings[ids[i]].EndPoint() > point {
        assert ids[j] == rest[j - 1];
        if i > 0 {
          assert ids[i] == rest[i - 1];
        }
      }
    }
  }

  /** A refresh goes through exactly when every account handed in is, at its turn, an open vesting of the position. */
  lemma {:induction false} RefreshSucceedsExactly(l: Ledger, id: Id, vestingIds: seq<Id>)
    requires Inv(l) && id in l.positions
    ensures l.RefreshAll(id, vestingIds).Ok? <==> Refreshable(l.vestings, vestingIds, id, l.Point())
    decreases |vestingIds|
  {
    hide Inv, Ledger.RefreshOne, VestingView.EndPoint, PositionView.Liquidity, Refreshed, Refreshable;
    if vestingIds == [] {
      NothingToRefresh(l.vestings, id, l.Point());
    } else {
      RefreshOneIs(l, id, vestingIds[0]);
      if l.RefreshOne(id, vestingIds[0]).Ok? {
        var next := l.RefreshOne(id, vestingIds[0]).value;
        RefreshableInTurn(l.vestings, next.vestings, vestingIds, id, l.Point());
        RefreshSucceedsExactly(next, id, vestingIds[1..]);
      } else {
        ForeignIsRefused(l.vestings, vestingIds, id, l.Point());
      }
    }
  }

  lemma NothingToRefresh(vestings: map<Id, VestingView>, id: Id, point: uint64)
    ensures Refreshable(vestings, [], id, point)
  {
  }

  lemma ForeignIsRefused(vestings: map<Id, VestingView>, ids: seq<Id>, id: Id, point: uint64)
    requires ids != [] && !(ids[0] in vestings && vestings[ids[0]].position == id)
    ensures !Refreshable(vestings, ids, id, point)
  {
    assert ids[0] in ids;
  }

  // ---------------------------------------------------------------------------------------------
  // Permanent locks
  // ---------------------------------------------------------------------------------------------

  /** `amount` moves from unlocked to permanently locked, and the pool's total rises by it; nothing else changes. */
  ghost predicate PermanentlyLockedAt(l: Ledger, m: Ledger, id: Id, amount: nat) {
    && id in l.positions && id in m.positions
    && m == l.(positions := l.positions[id := m.positions[id]],
               pool := l.pool.(permanentLockLiquidity := m.pool.permanentLockLiquidity))
    && m.positions[id] == l.positions[id].(unlocked := m.positions[id].unlocked, permanent := m.positions[id].permanent)
    && m.positions[id].unlocked == l.positions[id].unlocked - amount
    && m.positions[id].permanent == l.positions[id].permanent + amount
    && m.pool.permanentLockLiquidity == l.pool.permanentLockLiquidity + amount
  }

  /** A permanent lock goes through exactly when the position has that much unlocked. */
  lemma PermanentLockSucceedsExactly(l: Ledger, id: Id, amount: uint128)
    requires Inv(l) && id in l.positions
    ensures var r := l.PermanentLockPosition(id, amount);
            && (r.Ok? <==> amount <= l.positions[id].unlocked)
            && (r.Err? ==> r.error == InsufficientLiquidity)
            && (r.Ok? ==> Inv(r.value) && PermanentlyLockedAt(l, r.value, id, amount))
  {
    hide Inv, VestingsBalanced;
    PermanentLockFits(l, id);
    InvBalances(l);
    var r := l.PermanentLockPosition(id, amount);
    if r.Ok? {
      VestingsKept(l.positions, r.value.positions, l.vestings, l.Point());
      ShiftKeeps(l, r.value, id);
    }
  }

  lemma PermanentLockFits(l: Ledger, id: Id)
    requires Inv(l) && id in l.positions
    ensures l.pool.permanentLockLiquidity + l.positions[id].unlocked <= U128_MAX
    ensures l.positions[id].permanent + l.positions[id].unlocked <= U128_MAX
  {
    LiquidityFits(l, id);
    hide Solvent, VestingsBalanced, PoolSound;
    PermanentBelowLiquidity(l.positions, id);
  }

  lemma PermanentBelowLiquidity(positions: PositionMap, id: Id)
    requires id in positions
    ensures TotalPermanent(positions) + positions[id].unlocked <= TotalLiquidity(positions)
  {
    hide Total;
    var free := map k | k in positions :: positions[k].unlocked + positions[k].vested;
    TotalSum(Liquidities(positions), Permanents(positions), free);
    TotalCovers(free, id);
  }

  // ---------------------------------------------------------------------------------------------
  // Opening and closing positions
  // ---------------------------------------------------------------------------------------------

  ghost predicate OwedNothing(p: PositionView, a: Account, stored: nat) {
    a.StreamOf(p) == NO_STREAM && a.ClaimOf(p, stored) == 0
  }

  /** A position that holds nothing and is owed nothing in any account. */
  ghost predicate StartsEmpty(p: PositionView, pool: PoolView) {
    && p.unlocked == p.vested == p.permanent == 0
    && forall a: Account :: OwedNothing(p, a, Stored(pool, a))
  }

  /** A position can be opened exactly at an unused address; it holds nothing and is owed nothing of what was earned
      before. */
  lemma CreatePositionSucceedsExactly(l: Ledger, id: Id)
    requires Inv(l)
    ensures var r := l.CreatePosition(id);
            && (r.Ok? <==> id !in l.positions)
            && (r.Ok? ==>
                  && Inv(r.value) && id in r.value.positions && r.value == l.With(id, r.value.positions[id])
                  && StartsEmpty(r.value.positions[id], l.pool))
            && Safe(r)
  {
    hide Inv, StartsEmpty;
    if id !in l.positions {
      NewPositionStartsEmpty(l.pool);
      OpeningKeeps(l, id, NO_POSITION);
    }
  }

  lemma NewPositionStartsEmpty(pool: PoolView)
    ensures StartsEmpty(NO_POSITION, pool)
  {
    hide OwedNothing;
    forall a: Account ensures OwedNothing(NO_POSITION, a, Stored(pool, a)) {
      NothingOwed(a, Stored(pool, a));
    }
  }

  lemma OpeningKeeps(l: Ledger, id: Id, p: PositionView)
    requires Inv(l) && id !in l.positions && StartsEmpty(p, l.pool)
    ensures Inv(l.With(id, p))
  {
    hide AccountSolvent, TotalLiquidity, TotalPermanent, VestingsBalanced, PoolSound, OwedNothing;
    InvConserves(l);
    LiquidityAfter(l.positions, id, p);
    NewPositionBalances(l.positions, l.vestings, l.Point(), id, p);
    forall a: Account ensures AccountSolvent(l.With(id, p), a) {
      assert AccountSolvent(l, a) && OwedNothing(p, a, Stored(l.pool, a));
      NewPositionAccount(l, id, p, a);
    }
  }

  lemma NewPositionBalances(positions: PositionMap, vestings: map<Id, VestingView>, point: uint64, id: Id, p: PositionView)
    requires VestingsBalanced(positions, vestings, point) && id !in positions && p.vested == 0
    ensures VestingsBalanced(positions[id := p], vestings, point)
  {
    assert OpenVestings(vestings, id) == map[];
    hide VestingView.WellFormed, VestingView.ReleasedBy, VestingView.Outstanding, OpenVestings;
  }

  lemma NewPositionAccount(l: Ledger, id: Id, p: PositionView, a: Account)
    requires l.pool.Curve().InRange() && AccountSolvent(l, a) && id !in l.positions
    requires OwedNothing(p, a, Stored(l.pool, a))
    ensures AccountSolvent(l.With(id, p), a)
  {
    hide Owed, Stored, Covered, Backing, CurveState.InRange, Account.ClaimOf, Account.StreamOf;
    SameBacking(l, l.With(id, p), a);
    OwedAfter(l.positions, id, p, a, Stored(l.pool, a));
  }

  lemma NothingOwed(a: Account, stored: nat)
    ensures OwedNothing(NO_POSITION, a, stored)
  {
    hide Stream.Claim;
    assert a.StreamOf(NO_POSITION) == Stream(0, 0, 0);
    NothingClaimed(stored, a.Scale());
  }

  lemma NothingClaimed(stored: nat, scale: nat)
    ensures Stream(0, 0, 0).Claim(0, stored, scale) == 0
  {
  }

  /** No liquidity and nothing pending in any account. */
  ghost predicate Idle(p: PositionView) {
    p.Liquidity() == 0 && forall a: Account :: a.StreamOf(p).pending == 0
  }

  /** A position can be closed exactly when it holds nothing and nothing is pending; it is then owed nothing and has no
      open vesting left. */
  lemma ClosePositionSucceedsExactly(l: Ledger, id: Id)
    requires Inv(l)
    ensures var r := l.ClosePosition(id);
            && (r.Ok? <==> id in l.positions && Idle(l.positions[id]))
            && (r.Ok? ==>
                  && Inv(r.value) && r.value == l.(positions := l.positions - {id})
                  && (forall a: Account :: a.ClaimOf(l.positions[id], Stored(l.pool, a)) == 0)
                  && (forall v :: v in l.vestings ==> l.vestings[v].position != id))
            && Safe(r)
  {
    hide AccountSolvent, TotalLiquidity, TotalPermanent, OutstandingOf, PoolSound, Account.ClaimOf, VestingSound, Idle;
    InvConserves(l);
    if id in l.positions {
      LiquidityFits(l, id);
      EmptyIsIdle(l.positions[id]);
      if l.positions[id].IsEmpty() == Ok(true) {
        var m := l.(positions := l.positions - {id});
        EmptyClaims(l.positions[id], l.pool);
        EmptyHasNoVesting(l, id);
        WithoutPosition(l.positions, id, Fee(TOKEN_A), 0);
        OthersStayBalanced(l.positions, l.vestings, l.Point(), id);
        forall a: Account ensures AccountSolvent(m, a) {
          assert AccountSolvent(l, a);
          ClosedAccount(l, id, a);
        }
      }
    }
  }

  lemma EmptyIsIdle(p: PositionView)
    requires p.TotalLiquidity() == Ok(p.Liquidity())
    ensures p.IsEmpty().Ok? && (p.IsEmpty().value <==> Idle(p))
  {
    if p.IsEmpty() != Ok(true) {
      if p.Liquidity() == 0 {
        assert Fee(TOKEN_A).StreamOf(p).pending != 0 || Fee(TOKEN_B).StreamOf(p).pending != 0
            || Reward(0).StreamOf(p).pending != 0 || Reward(1).StreamOf(p).pending != 0;
      }
    }
  }

  lemma OthersStayBalanced(positions: PositionMap, vestings: map<Id, VestingView>, point: uint64, id: Id)
    requires VestingsBalanced(positions, vestings, point)
    requires forall v :: v in vestings ==> vestings[v].position != id
    ensures VestingsBalanced(positions - {id}, vestings, point)
  {
    hide OutstandingOf, VestingView.WellFormed, VestingView.ReleasedBy, VestingView.Outstanding;
  }

  lemma EmptyClaims(p: PositionView, pool: PoolView)
    requires Idle(p)
    ensures forall a: Account :: a.ClaimOf(p, Stored(pool, a)) == 0
  {
  }

  lemma EmptyHasNoVesting(l: Ledger, id: Id)
    requires Inv(l) && id in l.positions && l.positions[id].vested == 0
    ensures forall v :: v in l.vestings ==> l.vestings[v].position != id
  {
    hide Inv;
    forall v | v in l.vestings ensures l.vestings[v].position != id {
      VestingIsHeld(l, v);
    }
  }

  lemma ClosedAccount(l: Ledger, id: Id, a: Account)
    requires l.pool.Curve().InRange() && AccountSolvent(l, a)
    requires id in l.positions && a.ClaimOf(l.positions[id], Stored(l.pool, a)) == 0
    ensures AccountSolvent(l.(positions := l.positions - {id}), a)
  {
    hide Owed, Stored, Covered, Backing, CurveState.InRange, Account.ClaimOf;
    SameBacking(l, l.(positions := l.positions - {id}), a);
    WithoutPosition(l.positions, id, a, Stored(l.pool, a));
  }

  // ---------------------------------------------------------------------------------------------
  // Time
  // ---------------------------------------------------------------------------------------------

  /** Time passes exactly while the clock has room; only the clock changes, and the invariant survives. */
  lemma ElapseSucceedsExactly(l: Ledger, slots: uint64, seconds: uint64)
    requires Inv(l)
    ensures var r := l.Elapse(slots, seconds);
            && (r.Ok? <==> l.clock.slot + slots <= U64_MAX && l.clock.timestamp + seconds <= U64_MAX)
            && (r.Ok? ==>
                  && Inv(r.value) && r.value == l.(clock := r.value.clock)
                  && r.value.clock.slot == l.clock.slot + slots && r.value.clock.timestamp == l.clock.timestamp + seconds
                  && r.value.Point() == l.Point() + if l.pool.config.activationType.Slot? then slots else seconds)
            && Safe(r)
  {
    hide Inv;
    var r := l.Elapse(slots, seconds);
    if r.Ok? {
      LaterKeeps(l, r.value);
    }
  }

  /** A clock that moves forward keeps the invariant. */
  lemma LaterKeeps(l: Ledger, m: Ledger)
    requires Inv(l) && m == l.(clock := m.clock)
    requires l.clock.slot <= m.clock.slot && l.clock.timestamp <= m.clock.timestamp
    ensures Inv(m)
  {
    forall a: Account ensures AccountSolvent(m, a) {
      assert AccountSolvent(l, a);
      SameAccount(l, m, a);
    }
    SoundLater(l.pool, l.Now(), m.Now());
    hide AccountSolvent, TotalLiquidity, TotalPermanent, PoolSound, OutstandingOf, VestingView.WellFormed,
         VestingView.ReleasedBy, VestingView.Outstanding;
    forall v | v in m.vestings ensures VestingSound(m.positions, m.vestings[v], m.Point()) {
      assert VestingSound(l.positions, l.vestings[v], l.Point());
      StaysReleased(l.vestings[v], l.Point(), m.Point());
    }
  }

  lemma SoundLater(pool: PoolView, now: nat, later: nat)
    requires PoolSound(pool, now) && now <= later
    ensures PoolSound(pool, later)
  {
    RewardSoundLater(pool.rewards.zero, now, later);
    RewardSoundLater(pool.rewards.one, now, later);
  }

  lemma RewardSoundLater(r: RewardView, now: nat, later: nat)
    requires r.Sound(now) && now <= later
    ensures r.Sound(later)
  {
    var duration: nat :| r.WithinCampaign(now, duration);
    assert r.WithinCampaign(later, duration);
  }
}
