/** Lazy settlement: a pool keeps one growing amount per unit of liquidity, a position remembers the value it
    was last settled at (`Position::update_fee`, `UserRewardInfo::update_rewards`).

    Fees are scaled by 2^128, rewards by 2^192. */
module Settlement {
  import opened Numbers
  import opened Arithmetic

  /** What a position holds of one accumulator. */
  datatype Stream = Stream(pending: uint64, checkpoint: uint256, claimed: uint64) {
    /** Adds what `liquidity` earned since the checkpoint, rounded down. */
    function Settle(liquidity: uint128, stored: uint256, scale: nat): Result<Stream>
      requires scale > 0
    {
      var growth :- Checked256(stored - checkpoint);
      var wide :- Checked128(liquidity * growth / scale);
      var earned :- Cast64(wide);
      var total :- Checked64(earned + pending);
      Ok(this.(pending := total, checkpoint := stored))
    }

    /** Everything owed to the position when the accumulator stands at `stored`, times `scale`, unrounded. */
    ghost function Claim(liquidity: nat, stored: nat, scale: nat): int {
      scale * pending + liquidity * (stored - checkpoint)
    }
  }

  const NO_STREAM := Stream(0, 0, 0)

  /** Settling gives away less than one unit and creates nothing. */
  lemma SettleBounds(s: Stream, liquidity: uint128, stored: uint256, scale: nat)
    requires scale > 0 && s.Settle(liquidity, stored, scale).Ok?
    ensures var t := s.Settle(liquidity, stored, scale).value;
            && s.checkpoint <= stored == t.checkpoint && t.claimed == s.claimed
            && s.pending <= t.pending
            && t.Claim(liquidity, stored, scale) <= s.Claim(liquidity, stored, scale)
             < t.Claim(liquidity, stored, scale) + scale
  {
    var earned := Quotient(liquidity * (stored - s.checkpoint), scale);
    FloorIs(liquidity * (stored - s.checkpoint), scale, earned);
    assert scale * (earned + s.pending) == earned * scale + scale * s.pending;
    assert (earned + 1) * scale == earned * scale + scale;
  }

  /** A settlement goes through whenever the claim is covered by an amount that fits 64 bits. */
  lemma CoveredClaimSettles(s: Stream, liquidity: uint128, stored: uint256, scale: nat, cover: uint64)
    requires scale > 0 && s.checkpoint <= stored
    requires s.Claim(liquidity, stored, scale) <= scale * cover
    ensures s.Settle(liquidity, stored, scale).Ok?
  {
    var growth := stored - s.checkpoint;
    var earned := Quotient(liquidity * growth, scale);
    FloorIs(liquidity * growth, scale, earned);
    assert (earned + s.pending) * scale == earned * scale + scale * s.pending;
    CancelFactor(earned + s.pending, cover, scale);
  }

  // ---------------------------------------------------------------------------------------------
  // How often, and in how many positions, a holding is settled
  // ---------------------------------------------------------------------------------------------

  /** Successive settlements while the liquidity stays the same. */
  function SettleAll(s: Stream, liquidity: uint128, storeds: seq<uint256>, scale: nat): Result<Stream>
    requires scale > 0
    decreases |storeds|
  {
    if storeds == [] then Ok(s) else
      var next :- s.Settle(liquidity, storeds[0], scale);
      SettleAll(next, liquidity, storeds[1..], scale)
  }

  /** Each settlement of a sequence loses less than one unit of the claim. */
  lemma {:induction false} SettleAllBounds(s: Stream, liquidity: uint128, storeds: seq<uint256>, scale: nat, last: nat)
    requires scale > 0 && SettleAll(s, liquidity, storeds, scale).Ok?
    ensures var t := SettleAll(s, liquidity, storeds, scale).value;
            && t.Claim(liquidity, last, scale) <= s.Claim(liquidity, last, scale)
            <= t.Claim(liquidity, last, scale) + |storeds| * (scale - 1)
    ensures storeds != [] ==> SettleAll(s, liquidity, storeds, scale).value.checkpoint == storeds[|storeds| - 1]
    decreases |storeds|
  {
    hide Stream.Settle, Stream.Claim;
    if storeds != [] {
      var next := s.Settle(liquidity, storeds[0], scale).value;
      SettleBounds(s, liquidity, storeds[0], scale);
      ClaimMoves(s, liquidity, storeds[0], last, scale);
      ClaimMoves(next, liquidity, storeds[0], last, scale);
      SettleAllBounds(next, liquidity, storeds[1..], scale, last);
      OneMore(|storeds[1..]|, scale - 1);
    }
  }

  lemma OneMore(k: nat, x: nat)
    ensures (k + 1) * x == k * x + x
  {
  }

  /** Growth of the accumulator adds the same to every claim of the same liquidity. */
  lemma ClaimMoves(s: Stream, liquidity: nat, stored: nat, later: nat, scale: nat)
    ensures s.Claim(liquidity, later, scale) == s.Claim(liquidity, stored, scale) + liquidity * (later - stored)
  {
    assert liquidity * (later - s.checkpoint) == liquidity * (stored - s.checkpoint) + liquidity * (later - stored);
  }

  lemma SettledClaim(s: Stream, liquidity: nat, scale: nat)
    ensures s.Claim(liquidity, s.checkpoint, scale) == scale * s.pending
  {
  }

  /** Settling more often never pays: any settlements that end where one settlement ends give at most as much,
      and less by at most one unit for each settlement before the last. */
  lemma SettlingOftenNeverPays(s: Stream, liquidity: uint128, storeds: seq<uint256>, scale: nat)
    requires scale > 0 && storeds != []
    requires SettleAll(s, liquidity, storeds, scale).Ok? && s.Settle(liquidity, storeds[|storeds| - 1], scale).Ok?
    ensures var often := SettleAll(s, liquidity, storeds, scale).value;
            var once := s.Settle(liquidity, storeds[|storeds| - 1], scale).value;
            often.pending <= once.pending <= often.pending + |storeds| - 1
  {
    hide Stream.Settle, SettleAll, Stream.Claim;
    var last := storeds[|storeds| - 1];
    var often, once := SettleAll(s, liquidity, storeds, scale).value, s.Settle(liquidity, last, scale).value;
    SettleAllBounds(s, liquidity, storeds, scale, last);
    SettleBounds(s, liquidity, last, scale);
    SettledClaim(often, liquidity, scale);
    SettledClaim(once, liquidity, scale);
    LessThanUnits(often.pending, once.pending, s.Claim(liquidity, last, scale), |storeds|, scale);
  }

  lemma LessThanUnits(often: nat, once: nat, claim: int, k: nat, scale: nat)
    requires scale > 0 && k > 0
    requires scale * often <= claim <= scale * often + k * (scale - 1)
    requires scale * once <= claim < scale * once + scale
    ensures often <= once <= often + k - 1
  {
    assert scale * often + k * (scale - 1) == (often + k) * scale - k;
    assert scale * once + scale == (once + 1) * scale;
    CancelFactorStrict(often, once + 1, scale);
    CancelFactorStrict(once, often + k, scale);
  }

  /** `one` and `two` divide what `whole` holds, at the same checkpoint. */
  ghost predicate Divides(one: Stream, l1: nat, two: Stream, l2: nat, whole: Stream, l: nat) {
    && one.checkpoint == two.checkpoint == whole.checkpoint
    && one.pending + two.pending <= whole.pending
    && l1 + l2 <= l
  }

  /** Dividing a holding never pays: whenever and however often the two parts are settled, together they hold at most
      what the whole would hold after one settlement at the end. */
  lemma PartsNeverEarnMore(one: Stream, l1: uint128, storeds1: seq<uint256>, two: Stream, l2: uint128,
                           storeds2: seq<uint256>, whole: Stream, l: uint128, last: uint256, scale: nat)
    requires scale > 0 && Divides(one, l1, two, l2, whole, l) && whole.checkpoint <= last
    requires SettleAll(one, l1, storeds1 + [last], scale).Ok? && SettleAll(two, l2, storeds2 + [last], scale).Ok?
    requires whole.Settle(l, last, scale).Ok?
    ensures SettleAll(one, l1, storeds1 + [last], scale).value.pending
          + SettleAll(two, l2, storeds2 + [last], scale).value.pending
         <= whole.Settle(l, last, scale).value.pending
  {
    hide Stream.Settle, SettleAll, Stream.Claim;
    var end1 := SettleAll(one, l1, storeds1 + [last], scale).value;
    var end2 := SettleAll(two, l2, storeds2 + [last], scale).value;
    var end := whole.Settle(l, last, scale).value;
    SettleAllBounds(one, l1, storeds1 + [last], scale, last);
    SettleAllBounds(two, l2, storeds2 + [last], scale, last);
    SettleBounds(whole, l, last, scale);
    SettledClaim(end1, l1, scale);
    SettledClaim(end2, l2, scale);
    SettledClaim(end, l, scale);
    ClaimsOfParts(one, l1, two, l2, whole, l, last, scale);
    assert (end1.pending + end2.pending) * scale == scale * end1.pending + scale * end2.pending;
    assert (end.pending + 1) * scale == scale * end.pending + scale;
    CancelFactorStrict(end1.pending + end2.pending, end.pending + 1, scale);
  }

  lemma ClaimsOfParts(one: Stream, l1: nat, two: Stream, l2: nat, whole: Stream, l: nat, last: nat, scale: nat)
    requires Divides(one, l1, two, l2, whole, l) && whole.checkpoint <= last
    ensures one.Claim(l1, last, scale) + two.Claim(l2, last, scale) <= whole.Claim(l, last, scale)
  {
    var growth := last - whole.checkpoint;
    assert l1 * growth + l2 * growth == (l1 + l2) * growth;
    MulMono(l1 + l2, l, growth);
    MulMono(one.pending + two.pending, whole.pending, scale);
  }

  /** Nor does it pay against a whole that is settled at the very same times. */
  lemma {:induction false} PartsFollowTheWhole(one: Stream, l1: uint128, two: Stream, l2: uint128,
                                               whole: Stream, l: uint128, storeds: seq<uint256>, scale: nat)
    requires scale > 0 && Divides(one, l1, two, l2, whole, l)
    requires SettleAll(one, l1, storeds, scale).Ok? && SettleAll(two, l2, storeds, scale).Ok?
    requires SettleAll(whole, l, storeds, scale).Ok?
    ensures Divides(SettleAll(one, l1, storeds, scale).value, l1, SettleAll(two, l2, storeds, scale).value, l2,
                    SettleAll(whole, l, storeds, scale).value, l)
    decreases |storeds|
  {
    hide Stream.Settle;
    if storeds != [] {
      PartsNeverEarnMore(one, l1, [], two, l2, [], whole, l, storeds[0], scale) by {
        SettleOnce(one, l1, storeds[0], scale);
        SettleOnce(two, l2, storeds[0], scale);
        SettleBounds(whole, l, storeds[0], scale);
      }
      SettleOnce(one, l1, storeds[0], scale);
      SettleOnce(two, l2, storeds[0], scale);
      SettleBounds(one, l1, storeds[0], scale);
      SettleBounds(two, l2, storeds[0], scale);
      SettleBounds(whole, l, storeds[0], scale);
      PartsFollowTheWhole(one.Settle(l1, storeds[0], scale).value, l1, two.Settle(l2, storeds[0], scale).value, l2,
                          whole.Settle(l, storeds[0], scale).value, l, storeds[1..], scale);
    }
  }

  lemma SettleOnce(s: Stream, liquidity: uint128, stored: uint256, scale: nat)
    requires scale > 0
    ensures SettleAll(s, liquidity, [] + [stored], scale) == s.Settle(liquidity, stored, scale)
  {
    hide Stream.Settle;
    var storeds := [] + [stored];
    assert storeds[0] == stored && storeds[1..] == [];
  }
}
