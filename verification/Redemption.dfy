/** Getting a deposit back: what is added in one instruction and removed in any number of the following ones, on the
    whole ledger. */
module Redemption {
  import opened Numbers
  import opened Curve
  import opened Trading
  import opened Deposits
  import opened Rewards
  import opened Positions
  import opened Ledgers
  import opened Solvency
  import opened Safety

  /** Consecutive withdrawals without a limit. */
  function RemoveAll(l: Ledger, id: Id, pieces: seq<uint128>): Result<Ledger>
    decreases |pieces|
  {
    if pieces == [] then Ok(l) else
      var next :- l.RemoveLiquidity(id, Some(pieces[0]), Pair(0, 0));
      RemoveAll(next, id, pieces[1..])
  }

  /** A withdrawal of the piece pays at least one unit of one token. */
  predicate Pays(c: CurveState, piece: uint128) {
    var amounts := c.Amounts(piece, Down);
    amounts.Ok? && (amounts.value.zero > 0 || amounts.value.one > 0)
  }

  predicate AllPay(c: CurveState, pieces: seq<uint128>) {
    forall i :: 0 <= i < |pieces| ==> Pays(c, pieces[i])
  }

  // ---------------------------------------------------------------------------------------------
  // Rewards accrue once per second
  // ---------------------------------------------------------------------------------------------

  predicate UpdatedAt(r: RewardView, now: uint64) {
    r.initialized ==> r.lastUpdateTime == Min(now, r.rewardDurationEnd)
  }

  predicate AccruedNow(l: Ledger) {
    UpdatedAt(l.pool.rewards.zero, l.Now()) && UpdatedAt(l.pool.rewards.one, l.Now())
  }

  lemma UpdatedOnce(r: RewardView, supply: uint128, now: uint64)
    requires UpdatedAt(r, now)
    ensures r.UpdateRewards(supply, now) == Ok(r)
  {
    if r.initialized && supply > 0 {
      assert 0 * r.rewardRate == 0;
      assert r.RewardPerTokenSince(now, supply) == Ok(0);
      hide RewardView.RewardPerTokenSince;
    }
  }

  lemma UpdateRewardsAgain(l: Ledger, id: Id)
    requires Inv(l) && AccruedNow(l) && id in l.positions
    ensures l.UpdateRewards(id).Ok? && l.UpdateRewards(id).value.pool == l.pool
  {
    hide Inv, Ledger.SettleReward, RewardView.UpdateRewards;
    UpdatedOnce(l.pool.rewards.zero, l.pool.liquidity, l.Now());
    UpdatedOnce(l.pool.rewards.one, l.pool.liquidity, l.Now());
    SettleRewardIs(l, id);
  }

  lemma UpdateRewardsAccrues(l: Ledger, id: Id)
    requires Inv(l) && id in l.positions && l.UpdateRewards(id).Ok?
    ensures AccruedNow(l.UpdateRewards(id).value)
  {
    hide Inv, PoolSound, Ledger.AccrueRewards, PositionView.UpdatePositionReward, RewardView.Sound, RewardView.Reserved;
    InvSoundPool(l);
    AccrueRewardsIs(l);
  }

  /** Paying in or out, and moving liquidity, leaves the campaigns and the clock alone. */
  ghost predicate SameCampaigns(l: Ledger, m: Ledger) {
    m.pool.rewards == l.pool.rewards && m.clock == l.clock
  }

  lemma PaymentsKeepCampaigns(l: Ledger, amounts: Pair<uint64>)
    ensures l.CreditBoth(amounts).Ok? ==> SameCampaigns(l, l.CreditBoth(amounts).value)
    ensures l.DebitBoth(amounts).Ok? ==> SameCampaigns(l, l.DebitBoth(amounts).value)
  {
  }

  lemma SettlingKeepsCampaigns(l: Ledger, id: Id)
    requires id in l.positions && l.SettleFee(id).Ok?
    ensures id in l.SettleFee(id).value.positions && SameCampaigns(l, l.SettleFee(id).value)
  {
    hide PositionView.UpdateFee;
  }

  lemma MovingKeepsCampaigns(l: Ledger, id: Id, delta: uint128)
    requires id in l.positions
    ensures l.DepositLiquidity(id, delta).Ok? ==> SameCampaigns(l, l.DepositLiquidity(id, delta).value)
    ensures l.WithdrawLiquidity(id, delta).Ok? ==> SameCampaigns(l, l.WithdrawLiquidity(id, delta).value)
  {
  }

  lemma DepositAccrues(l: Ledger, id: Id, delta: uint128, max: Pair<uint64>)
    requires Inv(l) && l.AddLiquidity(id, delta, max).Ok?
    ensures AccruedNow(l.AddLiquidity(id, delta, max).value)
  {
    hide Inv, AccruedNow, RewardedAt, Ledger.UpdateRewards, Ledger.SettleFee, Ledger.DepositLiquidity, Ledger.CreditBoth,
         CurveState.Amounts;
    UpdateRewardsIs(l, id);
    var r := l.UpdateRewards(id).value;
    RewardedHas(l, r, id);
    UpdateRewardsAccrues(l, id);
    var amounts := r.pool.Curve().Amounts(delta, Up).value;
    SettlingKeepsCampaigns(r, id);
    var s := r.SettleFee(id).value;
    MovingKeepsCampaigns(s, id, delta);
    PaymentsKeepCampaigns(s.DepositLiquidity(id, delta).value, amounts);
    SameCampaignsAccrued(r, l.AddLiquidity(id, delta, max).value);
  }

  lemma WithdrawalAccrues(l: Ledger, id: Id, delta: Option<uint128>, min: Pair<uint64>)
    requires Inv(l) && l.RemoveLiquidity(id, delta, min).Ok?
    ensures AccruedNow(l.RemoveLiquidity(id, delta, min).value)
  {
    hide Inv, AccruedNow, RewardedAt, Ledger.UpdateRewards, Ledger.SettleFee, Ledger.WithdrawLiquidity, Ledger.DebitBoth,
         CurveState.Amounts;
    UpdateRewardsIs(l, id);
    var r := l.UpdateRewards(id).value;
    RewardedHas(l, r, id);
    UpdateRewardsAccrues(l, id);
    var removed := l.Removed(id, delta);
    var amounts := r.pool.Curve().Amounts(removed, Down).value;
    SettlingKeepsCampaigns(r, id);
    var s := r.SettleFee(id).value;
    MovingKeepsCampaigns(s, id, removed);
    PaymentsKeepCampaigns(s.WithdrawLiquidity(id, removed).value, amounts);
    SameCampaignsAccrued(r, l.RemoveLiquidity(id, delta, min).value);
  }

  lemma SameCampaignsAccrued(l: Ledger, m: Ledger)
    requires SameCampaigns(l, m) && AccruedNow(l)
    ensures AccruedNow(m)
  {
  }

  // ---------------------------------------------------------------------------------------------
  // Withdrawals in a row
  // ---------------------------------------------------------------------------------------------

  /** The worth of liquidity does not depend on how much of it there is. */
  lemma {:induction false} PiecesIgnoreLiquidity(c: CurveState, d: CurveState, pieces: seq<uint128>)
    requires d == c.(liquidity := d.liquidity)
    ensures WithdrawPieces(c, pieces) == WithdrawPieces(d, pieces) && (AllPay(c, pieces) <==> AllPay(d, pieces))
    decreases |pieces|
  {
    hide DeltaAmountA, DeltaAmountB;
    if pieces != [] {
      PiecesIgnoreLiquidity(c, d, pieces[1..]);
    }
  }

  lemma AllPayInTurn(c: CurveState, pieces: seq<uint128>)
    requires pieces != []
    ensures AllPay(c, pieces) <==> Pays(c, pieces[0]) && AllPay(c, pieces[1..])
  {
    hide Pays;
    if Pays(c, pieces[0]) && AllPay(c, pieces[1..]) {
      forall i | 0 <= i < |pieces| ensures Pays(c, pieces[i]) {
        if i > 0 {
          assert pieces[i] == pieces[1..][i - 1];
        }
      }
    }
  }

  /** One withdrawal without a limit, right after the rewards accrued. */
  lemma RemovePiece(l: Ledger, id: Id, piece: uint128)
    requires Inv(l) && AccruedNow(l) && id in l.positions && piece <= l.positions[id].unlocked
    ensures var r, amounts := l.RemoveLiquidity(id, Some(piece), Pair(0, 0)), l.pool.Curve().Amounts(piece, Down);
            && (r.Ok? <==> Pays(l.pool.Curve(), piece))
            && (r.Ok? ==>
                  && amounts.Ok? && Inv(r.value) && AccruedNow(r.value)
                  && LiquidityChanged(l, r.value, id, 0 - piece as int,
                                      Pair(0 - amounts.value.zero as int, 0 - amounts.value.one as int)))
  {
    hide Inv, AccruedNow, Ledger.RemoveLiquidity, Ledger.UpdateRewards, CurveState.Amounts, LiquidityChanged, RewardsFit,
         RewardedAt, AccruedAndSettled;
    UpdateRewardsAgain(l, id);
    UpdateRewardsIs(l, id);
    RemoveLiquiditySucceedsExactly(l, id, Some(piece), Pair(0, 0));
    NothingIsWorthNothing(l, id);
    if l.RemoveLiquidity(id, Some(piece), Pair(0, 0)).Ok? {
      WithdrawalAccrues(l, id, Some(piece), Pair(0, 0));
    }
  }

  lemma NothingIsWorthNothing(l: Ledger, id: Id)
    requires Inv(l)
    ensures !Pays(l.pool.Curve(), 0)
  {
    InvConserves(l);
    var c := l.pool.Curve();
    AmountsAreRounded(c, 0, Down);
    ScalesArePositive(c);
    hide Inv, CurveState.Amounts, CurveState.InRange, Unit, Scale;
    assert 0 * Unit(c, TOKEN_A) == 0 == 0 * Unit(c, TOKEN_B);
  }

  /** The pieces can be withdrawn in a row exactly when each is worth something, and that pays their rounded-down
      worths. */
  ghost predicate Redeems(l: Ledger, id: Id, pieces: seq<uint128>) {
    var r, paid := RemoveAll(l, id, pieces), WithdrawPieces(l.pool.Curve(), pieces);
    && (r.Ok? <==> AllPay(l.pool.Curve(), pieces))
    && (r.Ok? ==>
          && paid.Ok? && Inv(r.value)
          && LiquidityChanged(l, r.value, id, 0 - Sum(pieces), Pair(0 - paid.value.zero, 0 - paid.value.one)))
  }

  lemma {:induction false} RemoveAllIs(l: Ledger, id: Id, pieces: seq<uint128>)
    requires Inv(l) && AccruedNow(l) && id in l.positions && Sum(pieces) <= l.positions[id].unlocked
    ensures Redeems(l, id, pieces)
    decreases |pieces|
  {
    hide Inv, AccruedNow, Ledger.RemoveLiquidity, CurveState.Amounts, LiquidityChanged, Pays, AllPay;
    var c := l.pool.Curve();
    if pieces == [] {
      NothingChanged(l, id);
      NothingToPay(c);
    } else {
      RemovePiece(l, id, pieces[0]);
      AllPayInTurn(c, pieces);
      var next := l.RemoveLiquidity(id, Some(pieces[0]), Pair(0, 0));
      if next.Ok? {
        ChangedLiquidity(l, next.value, id, 0 - pieces[0] as int, c.Amounts(pieces[0], Down).value);
        RemoveAllIs(next.value, id, pieces[1..]);
        PiecesIgnoreLiquidity(c, next.value.pool.Curve(), pieces[1..]);
        if RemoveAll(next.value, id, pieces[1..]).Ok? {
          var amounts, rest := c.Amounts(pieces[0], Down).value, WithdrawPieces(c, pieces[1..]).value;
          ChangesCompose(l, next.value, RemoveAll(next.value, id, pieces[1..]).value, id, 0 - pieces[0] as int,
                         0 - Sum(pieces[1..]), Pair(0 - amounts.zero as int, 0 - amounts.one as int),
                         Pair(0 - rest.zero as int, 0 - rest.one as int));
        }
      }
    }
  }

  lemma NothingToPay(c: CurveState)
    ensures AllPay(c, [])
  {
  }

  lemma NothingChanged(l: Ledger, id: Id)
    requires id in l.positions
    ensures LiquidityChanged(l, l, id, 0, Pair(0, 0))
  {
    assert l.positions[id := l.positions[id]] == l.positions;
  }

  lemma ChangedLiquidity(l: Ledger, m: Ledger, id: Id, delta: int, amounts: Pair<uint64>)
    requires LiquidityChanged(l, m, id, delta, Pair(0 - amounts.zero as int, 0 - amounts.one as int))
    ensures id in l.positions && id in m.positions && m.positions[id].unlocked == l.positions[id].unlocked + delta
    ensures m.pool.Curve() == l.pool.Curve().(liquidity := m.pool.liquidity)
  {
  }

  lemma ChangesCompose(l: Ledger, m: Ledger, n: Ledger, id: Id, delta: int, more: int, paid: Pair<int>, again: Pair<int>)
    requires LiquidityChanged(l, m, id, delta, paid) && LiquidityChanged(m, n, id, more, again)
    ensures LiquidityChanged(l, n, id, delta + more, Pair(paid.zero + again.zero, paid.one + again.one))
  {
    assert m.positions[id := n.positions[id]] == l.positions[id := n.positions[id]];
  }

  /** A deposit taken out again before anyone trades, in any pieces, comes back whole but for at most one unit of each
      token per piece, and nobody is paid more than was deposited. It goes through exactly when every piece is worth at
      least one unit of a token. */
  lemma DepositComesBack(l: Ledger, id: Id, delta: uint128, max: Pair<uint64>, pieces: seq<uint128>)
    requires Inv(l) && l.AddLiquidity(id, delta, max).Ok? && Sum(pieces) == delta
    ensures var r := RemoveAll(l.AddLiquidity(id, delta, max).value, id, pieces);
            && (r.Ok? <==> AllPay(l.pool.Curve(), pieces))
            && (r.Ok? ==>
                  && Inv(r.value) && id in l.positions && id in r.value.positions
                  && SameHoldings(l.positions[id], r.value.positions[id])
                  && r.value.pool == l.pool.(rewards := r.value.pool.rewards)
                  && l.vaults.zero <= r.value.vaults.zero <= l.vaults.zero + |pieces|
                  && l.vaults.one <= r.value.vaults.one <= l.vaults.one + |pieces|)
  {
    hide Inv, AccruedNow, Ledger.AddLiquidity, Ledger.UpdateRewards, CurveState.Amounts, CurveState.InRange, Pays, AllPay,
         RemoveAll, WithdrawPieces, DepositFits;
    AddLiquiditySucceedsExactly(l, id, delta, max);
    var m, c := l.AddLiquidity(id, delta, max).value, l.pool.Curve();
    DepositAccrues(l, id, delta, max);
    RemoveAllIs(m, id, pieces);
    PiecesIgnoreLiquidity(c, m.pool.Curve(), pieces);
    InvConserves(l);
    WithdrawReturnsDeposit(c, pieces);
  }
}
